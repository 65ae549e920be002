# HBnB service core in Dafny

This project models the business core of the HBnB booking service: users, places,
reviews and amenities, the in-memory repositories that store them, and the facades that
the REST layer calls. The repository holds three generations of that core side by side,
and each is modelled in its own modules.

- **app_old** (`part3/app_old`). A `BaseModel` with `save`, `update` and `to_dict`. User,
  Place, Review and Amenity classes validate themselves in `__init__`. An
  `InMemoryRepository`, an ordered dict keyed by id, refuses a duplicate email. A
  singleton `HBnBFacade` keeps one repository per entity. Modules: `OldBase`, `OldUser`,
  `OldPlace`, `OldReview`, `OldAmenity`, `OldObjects`, `OldRepository`, `OldFacade`.
- **hbnb** (`part3/hbnb`). Dataclass entities with an explicit `validate()`. A
  `MemoryRepository` with one bucket per class. An `HbnbFacade` that returns dict views,
  checks references (owner, amenities, user, place) and expands places with their owner
  and amenities. Also the part2 dataclasses (`part2/hbnb/bl`). Modules: `HbnbBase`,
  `HbnbUser`, `HbnbPlace`, `HbnbReview`, `HbnbAmenity`, `Part2Bl`, `HbnbObjects`,
  `MemoryRepo`, `HbnbService`.
- **app** (`part3/hbnb/app`, with `part2/hbnb/app`). Models that validate their
  constructor arguments. A User that keeps a bcrypt hash. The part2 `Repository`, whose
  `update` sets keyword arguments unchecked. A registry of one repository per kind. The
  module-level facade. Modules: `AppBase`, `AppUser`, `AppPlace`, `AppReview`,
  `AppRepository`, `AppService`.
- **Pagination**: the list helper `paginate` of `part2/hbnb/utils.py`.

Shared modules:

- `Common`: Python values and truthiness, and the errors the core raises. It also has
  the id source (`uuid4`) and the clock (`datetime.now`), both as objects the operations
  are given, and a stand-in for the password hash.
- `Tables`: the insertion-ordered dict that all three repositories use.
- `Email`: the two email regular expressions, each proved equal to a scan.

Entities are datatype values; repositories, facades, the id source and the clock are
classes. Each state-changing method is proved against a function of the old state, for
example `(r, repo.State()) == AddSpec(old(repo.State()), obj)`. Lemmas about those
functions state what the source promises: round trips of `to_dict`, exact listings,
"nothing else changes", uniqueness of emails, references that must resolve, and
invariants every operation keeps.

## Model

| member | source | states |
|---|---|---|
| Common.StrListRoundTrip | part3/app_old/models/place.py:127-140 | a list of ids rendered as a Python list of strings reads back as the same ids |
| Common.FilterAppend | part3/hbnb/persistence/memory_repo.py:24-26 | a list comprehension with a condition distributes over concatenation, so it keeps relative order |
| Common.FilterAll | part3/hbnb/persistence/memory_repo.py:24-26 | every element of a filtered list, position by position, satisfies the condition |
| Common.FilterAllPass | part3/hbnb/persistence/memory_repo.py:24-26 | a condition true of every element keeps the whole list |
| Common.ShowInjective | part3/hbnb/bl/base.py:13 | distinct counter values give distinct ids, the uniqueness that uuid4 provides |
| Common.IdSource.Fresh | part3/app_old/models/base.py:17-21 | each drawn id is new: it was never handed out before, and it is recorded as issued |
| Common.Clock.Now | part3/hbnb/bl/base.py:8-9 | each reading is one tick after the previous one, so readings strictly increase |
| Common.HashChecks | part3/hbnb/app/models/user.py:26-35 | a stored hash accepts the password it was made from and no other |
| Common.SortedKeys | part3/hbnb/facade.py:114 | the keys of a set, each once, in lexicographic order: the order in which the model visits a dict's keys |
| Common.Iterate | part3/app_old/services/facade.py:118-120 | `for x in v`: a list gives its items, a string its one-character strings, a dict exactly its keys, each once; anything else raises TypeError; the same loop is at part3/hbnb/facade.py:90 |
| Tables.ValuesExact | part3/app_old/persistence/repository.py:126-133 | the listed values are exactly the stored values, none missing and none extra |
| Tables.Put | part3/app_old/persistence/repository.py:110-112 | `d[key] = v`: a new key goes to the end of the order, an existing key keeps its place, and the key maps to v |
| Tables.Remove | part3/app_old/persistence/repository.py:163-166 | `del d[key]`: the key is gone, every other key keeps its value and its relative place in the order, and deleting an absent key changes nothing |
| Tables.PutValues | part3/hbnb/persistence/memory_repo.py:16-19 | putting a new key appends its value to the listing; putting a known key keeps the listing's length and puts v at that key's position, with every other position unchanged |
| Tables.FilterKeepsNoDup | part3/app_old/persistence/repository.py:153-166 | removing keys from a repeat-free order leaves it repeat-free |
| Email.StrictEmailCorrect | part3/app_old/models/user.py:58-60 | the scan accepts a string iff `^[a-zA-Z0-9._%+-]+@[a-zA-Z0-9.-]+\.[a-zA-Z]{2,}$` matches it: a local part, '@', a domain, '.', and two or more letters at the end |
| Email.StrictEmail | part3/app_old/models/user.py:58-60 | the anchored email pattern, as a split of the string into its parts; StrictEmailCorrect ties it to the scan |
| Email.StrictSplitUnique | part3/app_old/models/user.py:58-60 | any way of matching the anchored pattern splits at the first '@' and the last '.' |
| Email.LooseEmailCorrect | part3/hbnb/app/models/user.py:5 | the scan accepts a string iff `[^@]+@[^@]+\.[^@]+` matches a prefix of it; the same pattern is used at part2/hbnb/app/models/user.py:4 |
| Email.LooseEmail | part3/hbnb/app/models/user.py:5 | the scan for a prefix matching `[^@]+@[^@]+\.[^@]+`; LooseEmailCorrect ties it to the pattern |
| HbnbBase.BaseFrom | part3/hbnb/bl/base.py:13-15 | each base field comes from the keyword arguments or takes its default, the fresh id or a clock reading; a non-string id is refused, which Python does not do (see "## Left out") |
| HbnbBase.DefaultBase | part3/hbnb/bl/base.py:13-15 | without keyword arguments, the id is the fresh one and the two timestamps are successive clock readings |
| HbnbBase.Touch | part3/hbnb/bl/base.py:20-21 | touch changes updated_at alone, to the current time |
| HbnbBase.BaseDictRoundTrip | part3/hbnb/bl/base.py:17-18 | the base entries of `asdict`, passed back as keyword arguments, rebuild the same base whatever else the dict holds |
| HbnbUser.New | part3/hbnb/bl/user.py:4-9 | `User(**kw)` refuses an unexpected keyword with TypeError; otherwise each field is the keyword's value or the empty-string default |
| HbnbUser.HasAt | part3/hbnb/bl/user.py:12 | on a string, `"@" in v` is the substring test |
| HbnbUser.Validate | part3/hbnb/bl/user.py:11-15 | validate: the email check before the password check; ValidateStrings gives its meaning |
| HbnbUser.ValidateStrings | part3/hbnb/bl/user.py:11-15 | with string fields, validate passes iff the email is non-empty and contains '@' and the password is non-empty; the email is checked first |
| HbnbUser.ValidateIgnoresNames | part3/hbnb/bl/user.py:11-15 | validate reads neither first_name nor last_name |
| HbnbUser.DefaultUserInvalid | part3/hbnb/bl/user.py:4-15 | a user built from no arguments fails validate on its empty email |
| HbnbUser.ToDict | part3/hbnb/bl/base.py:17-18 | asdict of a user has exactly the base fields and the four user fields, the password included |
| HbnbUser.ToDictRoundTrip | part3/hbnb/bl/base.py:17-18 | `User(**asdict(u))` gives u back |
| HbnbPlace.OrEmpty | part3/hbnb/bl/place.py:29 | `amenity_ids or []` keeps a truthy value and replaces a falsy one by an empty list |
| HbnbPlace.New | part3/hbnb/bl/place.py:19-29 | `Place(**kw)` refuses unexpected keywords; each field is the argument or its default, and amenity_ids is at least an empty list |
| HbnbPlace.InRange | part3/hbnb/bl/place.py:35-38 | a chained comparison passes iff the value is a number within the closed range |
| HbnbPlace.Validate | part3/hbnb/bl/place.py:31-41 | validate: name, price, latitude, longitude and owner_id in that order; ValidateMeaning and ValidateOrder give its meaning |
| HbnbPlace.ValidateMeaning | part3/hbnb/bl/place.py:31-41 | with numeric values a place is valid iff its name and owner_id are truthy, its price is at least 0 and both coordinates are within their closed ranges |
| HbnbPlace.ValidateOrder | part3/hbnb/bl/place.py:31-41 | the first failing check decides the error: name, then price, latitude, longitude, owner_id |
| HbnbPlace.NoneAmenities | part3/hbnb/bl/place.py:29 | a place built with amenity_ids None, or without it, holds an empty list |
| HbnbPlace.ToDict | part3/hbnb/bl/place.py:43-56 | the dict has exactly the base keys and the seven place keys, each holding that attribute |
| HbnbPlace.ToDictLeavesRoom | part3/hbnb/bl/place.py:43-56 | a place's dict has no "owner" and no "amenities" key, so the expanded view can add them |
| HbnbPlace.NewIsNormal | part3/hbnb/bl/place.py:19-29 | every constructed place holds a truthy amenity_ids or an empty list |
| HbnbPlace.ToDictRoundTrip | part3/hbnb/bl/place.py:19-56 | `Place(**p.to_dict())` rebuilds p exactly when p is one the constructor can produce |
| HbnbReview.New | part3/hbnb/bl/review.py:15-21 | `Review(**kw)` refuses unexpected keywords and stores each argument as given, with its default otherwise |
| HbnbReview.Validate | part3/hbnb/bl/review.py:23-31 | validate: text, user_id, place_id and rating in that order; ValidateMeaning gives its meaning |
| HbnbReview.ValidateMeaning | part3/hbnb/bl/review.py:23-31 | a review is valid iff text, user_id and place_id are truthy and the rating is a number in [0, 5]; the first failing check decides the error |
| HbnbReview.RatingBounds | part3/hbnb/bl/review.py:29-31 | integer ratings 0 and 5 pass, and -1 and 6 fail |
| HbnbReview.DefaultRatingPasses | part3/hbnb/bl/review.py:15-31 | leaving the rating out gives 0, which passes the rating check |
| HbnbReview.ToDict | part3/hbnb/bl/review.py:33-43 | the dict has exactly the base keys and text, rating, user_id and place_id |
| HbnbReview.ToDictRoundTrip | part3/hbnb/bl/review.py:15-43 | `Review(**r.to_dict())` gives r back |
| HbnbAmenity.New | part3/hbnb/bl/amenity.py:12-14 | `Amenity(name, **kwargs)` refuses unexpected keywords and takes the name or the empty default |
| HbnbAmenity.Validate | part3/hbnb/bl/amenity.py:16-18 | validate: the name must be a non-empty string; ValidateMeaning gives its meaning |
| HbnbAmenity.ValidateMeaning | part3/hbnb/bl/amenity.py:16-18 | any non-empty string name passes, the base is never read, and the default name fails |
| HbnbAmenity.ToDict | part3/hbnb/bl/amenity.py:20-27 | the dict has exactly id, name, created_at and updated_at |
| HbnbAmenity.ToDictRoundTrip | part3/hbnb/bl/amenity.py:12-27 | `Amenity(**a.to_dict())` gives a back |
| Part2Bl.NewPlace | part2/hbnb/bl/place.py:5-13 | the part2 dataclass refuses unexpected keywords and keeps amenity_ids exactly as given, an empty list by default |
| Part2Bl.PlacesAgree | part2/hbnb/bl/place.py:5-25 | the part2 and part3 places are built from the same arguments alike, except that part2 does not replace a falsy amenity_ids; their validate gives the same verdict |
| Part2Bl.ValidatePlace | part2/hbnb/bl/place.py:15-25 | the part2 validate, with the checks of the part3 place; PlacesAgree proves the two agree |
| Part2Bl.DefaultAmenities | part2/hbnb/bl/place.py:13 | without amenity_ids a part2 place holds an empty list, and an explicit None stays None |
| Part2Bl.NewAmenity | part2/hbnb/bl/amenity.py:4-6 | the part2 Amenity dataclass is built exactly as the part3 one |
| Part2Bl.ValidateAmenity | part2/hbnb/bl/amenity.py:8-10 | validate passes iff the name is truthy, and otherwise raises "name is required" |
| Part2Bl.AmenityMeaning | part2/hbnb/bl/amenity.py:8-10 | only the name is read, any non-empty name passes, and the default amenity fails |
| HbnbObjects.ToDict | part3/hbnb/facade.py:59 | an entity's to_dict view holds its id and every attribute of its class |
| HbnbObjects.PatchEffect | part3/hbnb/facade.py:40-43 | after the setattr loop every attribute but the id that the payload names takes the payload's value, all others keep theirs, and class and id stay; the same loop is at lines 74-77, 117-120 and 163-166 |
| HbnbObjects.PatchStep | part3/hbnb/facade.py:40-43 | one more setattr on a key not yet applied extends the patch by that key |
| HbnbObjects.PatchEmpty | part3/hbnb/facade.py:40-43 | an empty payload changes nothing |
| HbnbObjects.ToDictInjective | part3/hbnb/facade.py:59 | two entities of one class with the same to_dict view are the same entity |
| HbnbObjects.WithoutId | part3/hbnb/facade.py:41-42 | the payload minus its "id" entry, with every other entry kept |
| HbnbObjects.SetAll | part3/hbnb/facade.py:40-43 | the loop sets exactly the payload minus "id" on the object, key by key |
| HbnbObjects.TouchEffect | part3/hbnb/bl/base.py:20-21 | touch changes updated_at alone, and validate never reads it |
| MemoryRepo.Bucket | part3/hbnb/persistence/memory_repo.py:13-14 | a class without a bucket reads as an empty one |
| MemoryRepo.ListSpec | part3/hbnb/persistence/memory_repo.py:24-26 | list(cls): the bucket's values in insertion order; ListWhereExact gives its meaning |
| MemoryRepo.ListWhereSpec | part3/hbnb/persistence/memory_repo.py:24-26 | list(cls, predicate): the values the predicate keeps; ListWhereExact gives its meaning |
| MemoryRepo.SoundBucket | part3/hbnb/persistence/memory_repo.py:13-19 | every bucket holds objects of its own class under their own ids |
| MemoryRepo.AddSpec | part3/hbnb/persistence/memory_repo.py:16-19 | add keeps every bucket sound |
| MemoryRepo.GetSpec | part3/hbnb/persistence/memory_repo.py:21-22 | get finds an object iff its id is in the class's bucket, and gives that object |
| MemoryRepo.UpdateSpec | part3/hbnb/persistence/memory_repo.py:28-33 | update keeps every bucket sound |
| MemoryRepo.DeleteSpec | part3/hbnb/persistence/memory_repo.py:35-38 | delete keeps every bucket sound |
| MemoryRepo.MemoryRepository.constructor | part3/hbnb/persistence/memory_repo.py:10-11 | a new repository has no buckets |
| MemoryRepo.MemoryRepository.Add | part3/hbnb/persistence/memory_repo.py:16-19 | stores the object in its class's bucket under its id and returns it |
| MemoryRepo.MemoryRepository.Get | part3/hbnb/persistence/memory_repo.py:21-22 | returns the stored object of that class and id, or None |
| MemoryRepo.MemoryRepository.List | part3/hbnb/persistence/memory_repo.py:24-26 | returns the bucket's values in insertion order, filtered by the predicate when one is given |
| MemoryRepo.MemoryRepository.Update | part3/hbnb/persistence/memory_repo.py:28-33 | raises KeyError "Cls(id) not found" for an id not in the bucket, and otherwise replaces the entry |
| MemoryRepo.MemoryRepository.Delete | part3/hbnb/persistence/memory_repo.py:35-38 | removes the entry when present and is a silent no-op otherwise |
| MemoryRepo.AddThenGet | part3/hbnb/persistence/memory_repo.py:16-26 | after add(obj), get(type(obj), obj.id) returns obj and list(type(obj)) holds it |
| MemoryRepo.BucketsIsolated | part3/hbnb/persistence/memory_repo.py:13-22 | an add touches no other class's bucket, and everything stored under a class name is of that class and under its own id |
| MemoryRepo.AddOverwrites | part3/hbnb/persistence/memory_repo.py:16-19 | add checks nothing: a known id is replaced where it stands and the listing keeps its length |
| MemoryRepo.AddAppends | part3/hbnb/persistence/memory_repo.py:16-26 | a new id goes to the end of its class's listing |
| MemoryRepo.UpdateEffect | part3/hbnb/persistence/memory_repo.py:28-33 | an unknown id raises KeyError and changes nothing; a known one replaces that entry alone and keeps the order |
| MemoryRepo.DeleteEffect | part3/hbnb/persistence/memory_repo.py:35-38 | after delete the entry is gone, deleting an absent entry changes nothing, and every other entry stays |
| MemoryRepo.ListWhereExact | part3/hbnb/persistence/memory_repo.py:24-26 | list(cls, predicate) gives exactly the bucket values the predicate keeps, in bucket order, and list(cls) gives every stored object of the class |
| HbnbService.Find | part3/hbnb/facade.py:88-92 | a payload key looks an object up: a list or dict key is unhashable, any other non-string finds nothing, and a string finds what get finds |
| HbnbService.CheckRefsMeaning | part3/hbnb/facade.py:90-92 | the amenity loop passes iff every id names a stored amenity; with string ids the only error is BadRequest |
| HbnbService.CheckRefs | part3/hbnb/facade.py:90-92 | the amenity loop over the items of a payload value, raising at the first id that finds nothing; CheckRefsMeaning gives its meaning |
| HbnbService.CheckAmenities | part3/hbnb/facade.py:113-116 | `for aid in v or []`, with the iteration of a list, string or dict; CheckAmenitiesMeaning gives its meaning |
| HbnbService.CheckAmenitiesMeaning | part3/hbnb/facade.py:113-116 | the amenity check passes iff the value is falsy, or a list, string or dict whose every item names a stored amenity; for a dict that is every key, and a failing string or dict always gives the BadRequest |
| HbnbService.PublicView | part3/hbnb/facade.py:49-52 | the user's to_dict view with the password removed and every other entry kept |
| HbnbService.OwnerView | part3/hbnb/facade.py:128-132 | the "owner" entry of an expanded place; OwnerViewMeaning gives its meaning |
| HbnbService.Expanded | part3/hbnb/facade.py:126-134 | `_place_expanded`: to_dict plus the owner and amenity entries; ExpandedMeaning and ExpandedOwner give its meaning |
| HbnbService.ResolvedIds | part3/hbnb/facade.py:133 | the ids of the list that name stored amenities, in list order |
| HbnbService.AmenityDicts | part3/hbnb/facade.py:133 | the to_dict views of the given stored amenities, one per id |
| HbnbService.AmenityViewsMeaning | part3/hbnb/facade.py:133 | with string ids, the "amenities" entry lists the to_dict views of exactly the ids that resolve, in amenity_ids order |
| HbnbService.OwnerViewMeaning | part3/hbnb/facade.py:128-132 | the "owner" entry is None iff owner_id names no user, and otherwise has exactly id, first_name, last_name and email of that user |
| HbnbService.ExpandedMeaning | part3/hbnb/facade.py:126-134 | an expanded place holds the place's to_dict entries and exactly two more keys, "owner" and "amenities" |
| HbnbService.ExpandedOwner | part3/hbnb/facade.py:126-134 | the owner and amenities entries of an expanded place are the owner's public fields and the amenity views |
| HbnbService.CreateUserAsWrittenNeverStores | part3/hbnb/facade.py:15-25 | as written, create_user never stores a user and always raises |
| HbnbService.CreateUserAsWrittenRejectsValidUser | part3/hbnb/facade.py:15-25 | a well-formed payload with an email and a password that create_user as written rejects |
| HbnbService.CreateUserSpec | part3/hbnb/facade.py:15-25 | the intended create_user keeps every bucket sound |
| HbnbService.GetUserSpec | part3/hbnb/facade.py:27-31 | get_user: the public view of the stored user, or NotFound; UserViewsHidePassword says it holds no password |
| HbnbService.ListUsersSpec | part3/hbnb/facade.py:33-34 | list_users: the public view of every stored user; UserViewsHidePassword says none holds a password |
| HbnbService.CreateUserEffect | part3/hbnb/facade.py:15-25 | the intended create_user succeeds iff the user can be built, is valid and has a string password; the stored user holds a hash that checks against that password, and the view has no password |
| HbnbService.UpdateStoredAsWritten | part3/hbnb/facade.py:36-47 | the update flow as written: the payload is set on the stored object itself before validate |
| HbnbService.UpdateAsWrittenKeepsInvalidPatch | part3/hbnb/facade.py:70-81 | as written, emptying a stored amenity's name raises and leaves the amenity stored with a name validate rejects |
| HbnbService.UpdateStored | part3/hbnb/facade.py:36-47 | the intended update flow keeps every bucket sound; the same flow is at lines 70-81 and 159-170 |
| HbnbService.UpdateStoredEffect | part3/hbnb/facade.py:36-47 | an unknown id raises NotFound, a failed validate raises, and both change nothing; otherwise only the entry under id changes, to the patched and touched object with the same id |
| HbnbService.AddKeepsValid | part3/hbnb/persistence/memory_repo.py:16-19 | adding a valid object keeps every stored object valid |
| HbnbService.UpdateStoredKeepsValid | part3/hbnb/facade.py:36-47 | the intended update keeps every stored object valid |
| HbnbService.UpdateUserSpec | part3/hbnb/facade.py:36-47 | the intended update_user (see "## Findings"), which keeps every bucket sound; the code as written is UpdateStoredAsWritten |
| HbnbService.UserViewsHidePassword | part3/hbnb/facade.py:27-52 | no user view that get_user, list_users or update_user returns holds a password |
| HbnbService.CreateAmenitySpec | part3/hbnb/facade.py:55-59 | create_amenity keeps every bucket sound |
| HbnbService.UpdateDictSpec | part3/hbnb/facade.py:70-81 | the intended update_amenity and update_review (see "## Findings"), which keep every bucket sound; the review version is at lines 159-170 |
| HbnbService.CreatePlaceSpec | part3/hbnb/facade.py:84-96 | create_place keeps every bucket sound |
| HbnbService.NewPlaceSpec | part3/hbnb/facade.py:94-96 | the build, validate and add part of create_place keeps every bucket sound |
| HbnbService.CreatePlaceChecksReferences | part3/hbnb/facade.py:84-96 | create_place raises BadRequest and stores nothing when owner_id names no user or an amenity id names no amenity; a place is stored only when both resolve |
| HbnbService.UpdatePlaceSpec | part3/hbnb/facade.py:107-124 | the intended update_place (see "## Findings"), which keeps every bucket sound |
| HbnbService.UpdatePlaceChecksReferences | part3/hbnb/facade.py:107-124 | update_place raises NotFound for an unknown id, and BadRequest for an owner_id or amenity_ids that does not resolve, before any attribute is set |
| HbnbService.PatchRefsMeaning | part3/hbnb/facade.py:111-116 | the patch checks pass only when a given owner_id names a user and given amenity_ids name amenities |
| HbnbService.CreateReviewSpec | part3/hbnb/facade.py:137-145 | create_review keeps every bucket sound |
| HbnbService.CreateReviewChecksReferences | part3/hbnb/facade.py:137-145 | a review is stored only when user_id names a user and place_id a place; an id naming nothing raises BadRequest, the user checked first |
| HbnbService.ReviewsForPlaceExact | part3/hbnb/facade.py:156-157 | list_reviews_for_place lists the view of a stored review iff its place_id is the given id |
| HbnbService.ReviewsForPlaceSound | part3/hbnb/facade.py:156-157 | every listed review has the given place_id |
| HbnbService.ReviewsForPlaceComplete | part3/hbnb/facade.py:156-157 | every stored review with the given place_id is listed |
| HbnbService.DeleteReviewSpec | part3/hbnb/facade.py:172-175 | delete_review keeps every bucket sound |
| HbnbService.DeleteReviewEffect | part3/hbnb/facade.py:172-175 | an unknown id raises NotFound and changes nothing; otherwise that review is gone and every other entry stays |
| HbnbService.CreateUserKeepsValid | part3/hbnb/facade.py:15-25 | the intended create_user keeps every stored object valid |
| HbnbService.CreatePlaceKeepsValid | part3/hbnb/facade.py:84-96 | create_place keeps every stored object valid |
| HbnbService.CreateReviewKeepsValid | part3/hbnb/facade.py:137-145 | create_review keeps every stored object valid |
| HbnbService.CreateAmenityKeepsValid | part3/hbnb/facade.py:55-59 | create_amenity keeps every stored object valid |
| HbnbService.Resolve | part3/hbnb/facade.py:88 | looks a payload key up in the repository as the lookup function says |
| HbnbService.CheckAmenitiesIn | part3/hbnb/facade.py:90-92 | the amenity loop gives the same outcome as the amenity check |
| HbnbService.CheckPatchRefs | part3/hbnb/facade.py:111-116 | the patch's reference checks, with the repository unchanged |
| HbnbService.ApplyUpdate | part3/hbnb/facade.py:40-46 | the update flow on the repository gives the intended update's result and new state |
| HbnbService.CreatePlaceIn | part3/hbnb/facade.py:84-96 | the body of create_place gives create_place's result and new state |
| HbnbService.AddNewPlace | part3/hbnb/facade.py:94-96 | the build, validate and add part gives its result and new state |
| HbnbService.NewPlaceStores | part3/hbnb/facade.py:94-96 | a place that builds and validates is stored, and its expanded view is returned |
| HbnbService.UpdatePlaceIn | part3/hbnb/facade.py:107-124 | the body of update_place gives the intended update_place's result and new state |
| HbnbService.HbnbFacade.constructor | part3/hbnb/facade.py:11-12 | the facade uses the given repository, and a new empty one when none is given |
| HbnbService.HbnbFacade.Draw | part3/hbnb/bl/base.py:13-15 | draws one fresh id and two successive clock readings |
| HbnbService.HbnbFacade.CreateUser | part3/hbnb/facade.py:15-25 | gives the intended create_user's result and new state on a fresh id |
| HbnbService.HbnbFacade.GetUser | part3/hbnb/facade.py:27-31 | the public view of the stored user, or NotFound |
| HbnbService.HbnbFacade.ListUsers | part3/hbnb/facade.py:33-34 | the public views of every stored user, in insertion order |
| HbnbService.HbnbFacade.UpdateUser | part3/hbnb/facade.py:36-47 | gives the intended update_user's result and new state (see "## Findings") |
| HbnbService.HbnbFacade.CreateAmenity | part3/hbnb/facade.py:55-59 | gives create_amenity's result and new state on a fresh id |
| HbnbService.HbnbFacade.GetDict | part3/hbnb/facade.py:61-65 | get_amenity, and get_review at lines 147-151: the stored object's dict, or NotFound |
| HbnbService.HbnbFacade.ListDicts | part3/hbnb/facade.py:67-68 | list_amenities, and list_reviews at lines 153-154: the dicts of the class's objects in insertion order |
| HbnbService.HbnbFacade.UpdateDict | part3/hbnb/facade.py:70-81 | update_amenity, and update_review at lines 159-170: gives the intended update's result and new state (see "## Findings") |
| HbnbService.HbnbFacade.CreatePlace | part3/hbnb/facade.py:84-96 | gives create_place's result and new state on a fresh id |
| HbnbService.HbnbFacade.GetPlace | part3/hbnb/facade.py:98-102 | the expanded view of the stored place, or NotFound |
| HbnbService.HbnbFacade.ListPlaces | part3/hbnb/facade.py:104-105 | the expanded views of every stored place |
| HbnbService.HbnbFacade.UpdatePlace | part3/hbnb/facade.py:107-124 | gives the intended update_place's result and new state (see "## Findings") |
| HbnbService.HbnbFacade.CreateReview | part3/hbnb/facade.py:137-145 | gives create_review's result and new state on a fresh id |
| HbnbService.HbnbFacade.ListReviewsForPlace | part3/hbnb/facade.py:156-157 | the views of the reviews of that place, in insertion order |
| HbnbService.HbnbFacade.DeleteReview | part3/hbnb/facade.py:172-175 | gives delete_review's result and new state |
| OldBase.NewBase | part3/app_old/models/base.py:17-21 | a fresh id, and created_at and updated_at from two successive clock readings |
| OldBase.Save | part3/app_old/models/base.py:23-25 | save moves updated_at alone, to the given reading |
| OldBase.BaseDict | part3/app_old/models/base.py:39-50 | to_dict holds exactly id, created_at and updated_at |
| OldBase.BaseDictRoundTrip | part3/app_old/models/base.py:39-50 | the base attributes read back from to_dict, whatever else it holds |
| OldUser.GivenMeansTruthyString | part3/app_old/models/user.py:38-44 | `v and isinstance(v, str)` holds iff v is a non-empty string |
| OldUser.Validate | part3/app_old/models/user.py:36-64 | every failure of validate is a ValueError |
| OldUser.ValidateCorrect | part3/app_old/models/user.py:36-64 | validate passes iff both names are non-empty strings of at most 50 characters, the email is a string matching the pattern, and is_admin is a bool |
| OldUser.ValidateOrder | part3/app_old/models/user.py:36-64 | required fields are checked first, in the order first_name, last_name, email, and a 50-character name passes the length check |
| OldUser.Construct | part3/app_old/models/user.py:16-34 | the constructor returns a user only when it is valid, with the given fields |
| OldUser.ToDict | part3/app_old/models/user.py:66-75 | the base keys plus email, first_name, last_name and is_admin |
| OldUser.ToDictRoundTrip | part3/app_old/models/user.py:66-75 | to_dict loses nothing |
| OldAmenity.Validate | part2/app/models/amenity.py:26-39 | validate passes iff the name is a non-empty string of at most 50 characters; an empty name and a name over 50 characters each raise their own ValueError |
| OldAmenity.Construct | part2/app/models/amenity.py:12-24 | the constructor returns an amenity only when it is valid, with the given name |
| OldAmenity.ToDict | part2/app/models/amenity.py:41-47 | the base keys plus name |
| OldAmenity.ToDictRoundTrip | part2/app/models/amenity.py:41-47 | to_dict loses nothing |
| OldReview.Validate | part2/app/models/review.py:42-65 | validate passes iff the text is a non-empty string, the rating an int in [1, 5], and place and user are given; every failure is a ValueError |
| OldReview.ValidateOrder | part2/app/models/review.py:42-65 | 0 and 6 are out of range and 1 and 5 pass; a bad text is reported before a bad rating, and a bad rating before a missing place or user |
| OldReview.Construct | part2/app/models/review.py:20-40 | the constructor returns a review only when it is valid, with place_id and user_id the ids of the given place and user |
| OldReview.ToDict | part2/app/models/review.py:67-76 | the base keys plus text, rating, place_id and user_id |
| OldReview.ToDictRoundTrip | part2/app/models/review.py:67-76 | to_dict loses nothing but the references, which agree with the ids on every constructed review |
| OldPlace.Validate | part3/app_old/models/place.py:54-93 | validate passes iff the title is a non-empty string of at most 100 characters, the description None or a string, the price a positive number, the coordinates numbers in their closed ranges, and the owner given; every failure is a ValueError |
| OldPlace.ValidateBounds | part3/app_old/models/place.py:54-93 | a 100-character title and the coordinate bounds themselves pass, and a price of zero fails |
| OldPlace.Construct | part3/app_old/models/place.py:25-52 | the constructor returns a place only when it is valid; owner_id is the owner's id when an owner is given, and both lists start empty |
| OldPlace.AppendNew | part3/app_old/models/place.py:104-107 | `if x not in l: l.append(x)` adds x at the end unless it is present |
| OldPlace.AppendNewKeepsNoDup | part3/app_old/models/place.py:104-107 | appending a new item keeps the list free of repeats |
| OldPlace.AppendAll | part3/app_old/services/facade.py:137-138 | adding items one by one holds each item of either list once |
| OldPlace.AppendAllProperties | part3/app_old/services/facade.py:137-138 | the result has no repeats and, for distinct items not yet present, keeps them all in order |
| OldPlace.AddReview | part3/app_old/models/place.py:95-109 | None is rejected with ValueError; a review already present changes nothing; otherwise it is appended and the place saved |
| OldPlace.AddAmenity | part3/app_old/models/place.py:111-125 | the same protocol over the amenity list |
| OldPlace.TwoAmenities | part3/app_old/models/place.py:111-125 | two different amenities added to a fresh place give a list of length two holding both |
| OldPlace.AddKeepsNoDup | part3/app_old/models/place.py:95-125 | adding keeps both lists free of repeats |
| OldPlace.ToDict | part3/app_old/models/place.py:127-140 | the base keys plus the attributes, with the reviews and amenities as lists of ids in insertion order |
| OldPlace.ToDictRoundTrip | part3/app_old/models/place.py:127-140 | to_dict loses nothing but the owner reference, which agrees with owner_id on every constructed place |
| OldObjects.Touch | part3/app_old/models/base.py:23-25 | save on any entity moves updated_at alone |
| OldObjects.PatchGetAttr | part3/app_old/models/base.py:27-37 | an attribute named in the dict takes its value when the value fits, and every other attribute keeps its value |
| OldObjects.PatchStep | part3/app_old/models/base.py:30-33 | one more setattr on a new key extends the patch by that key, and repeating a key with the same value changes nothing |
| OldObjects.PatchEmpty | part3/app_old/models/base.py:27-37 | an empty dict changes nothing |
| OldObjects.SetAttrs | part3/app_old/models/base.py:30-33 | the setattr loop sets every allowed key of the dict that the object has as an attribute, each once |
| OldObjects.Update | part3/app_old/models/base.py:27-37 | BaseModel.update sets the dict's entries for the attributes the object has, except the base ones, and then saves |
| OldObjects.UpdateEffect | part3/app_old/models/base.py:27-37 | through the dict the id and created_at never change, updated_at is refreshed even when no key applies, keys the object lacks are ignored, and other named attributes take the value |
| OldObjects.ValidateIgnoresBase | part3/app_old/models/base.py:52-60 | validate does not read the base attributes, so save keeps its verdict |
| OldObjects.KeepsId | part3/app_old/models/base.py:27-37 | a patch without an id key keeps the object's id |
| OldRepository.FirstMatchCorrect | part3/app_old/persistence/repository.py:168-182 | the found object matches and nothing before it does; no result means nothing matches |
| OldRepository.FirstMatch | part3/app_old/persistence/repository.py:168-182 | get_by_attribute: the first stored object whose attribute equals the value; FirstMatchCorrect gives its meaning |
| OldRepository.FirstMatchStep | part3/app_old/persistence/repository.py:178-181 | the search looks at the current object first, and past it when it does not match |
| OldRepository.AddSpec | part3/app_old/persistence/repository.py:96-112 | add keeps the table well formed |
| OldRepository.UpdateSpec | part3/app_old/persistence/repository.py:135-151 | update keeps the table well formed |
| OldRepository.DeleteSpec | part3/app_old/persistence/repository.py:153-166 | delete keeps the table well formed |
| OldRepository.AddThenGet | part3/app_old/persistence/repository.py:96-133 | after a successful add, get(obj.id) returns obj and get_all contains it |
| OldRepository.AddWithoutEmail | part3/app_old/persistence/repository.py:104-108 | an object without an email attribute is never refused |
| OldRepository.ValuesMember | part3/app_old/persistence/repository.py:126-133 | the value at each position of get_all is stored under the key at that position |
| OldRepository.MatchStored | part3/app_old/persistence/repository.py:168-182 | a found object is stored under some key |
| OldRepository.AddEmailUniqueness | part3/app_old/persistence/repository.py:96-112 | with ids as keys and unique emails, add refuses iff an object with another id holds the email, and the refusal stores nothing |
| OldRepository.AddFreshEmailCheck | part3/app_old/persistence/repository.py:96-112 | for a new id, add refuses iff some stored object already holds the email |
| OldRepository.AddKeepsInvariants | part3/app_old/persistence/repository.py:96-112 | a successful add keeps ids as keys and emails unique |
| OldRepository.DeleteEffect | part3/app_old/persistence/repository.py:153-166 | delete returns true and removes the entry iff the id was present, otherwise nothing changes, and get_all no longer lists it |
| OldRepository.UpdateEffect | part3/app_old/persistence/repository.py:135-151 | an unknown id gives None and no change; a known one sets only attributes the object has, and every other entry stays |
| OldRepository.InMemoryRepository.constructor | part3/app_old/persistence/repository.py:92-94 | a new repository is empty |
| OldRepository.InMemoryRepository.Assign | part3/app_old/persistence/repository.py:110-111 | `_storage[key] = obj` puts the object under the key |
| OldRepository.InMemoryRepository.Get | part3/app_old/persistence/repository.py:114-124 | the stored object, or None |
| OldRepository.InMemoryRepository.GetAll | part3/app_old/persistence/repository.py:126-133 | the stored values in insertion order |
| OldRepository.InMemoryRepository.GetByAttribute | part3/app_old/persistence/repository.py:168-182 | the first stored object, in insertion order, whose attribute equals the value |
| OldRepository.InMemoryRepository.Add | part3/app_old/persistence/repository.py:96-112 | gives add's outcome and new state |
| OldRepository.InMemoryRepository.Update | part3/app_old/persistence/repository.py:135-151 | gives update's result and new state |
| OldRepository.InMemoryRepository.Delete | part3/app_old/persistence/repository.py:153-166 | gives delete's result and new state |
| OldFacade.Fetch | part3/app_old/persistence/repository.py:114-124 | a list or dict key raises TypeError (unhashable), any other non-string key finds nothing, and a string key finds the stored object |
| OldFacade.Missing | part3/app_old/services/facade.py:111-123 | a key that finds nothing gives TypeError when it is unhashable, and otherwise the facade's ValueError |
| OldFacade.UpdateAsWritten | part3/app_old/services/facade.py:64-91 | update as written: the stored object is changed before validate, so a failed validate leaves it changed |
| OldFacade.UpdateChecked | part3/app_old/services/facade.py:64-91 | the intended update keeps the table well formed |
| OldFacade.UpdateCheckedEffect | part3/app_old/services/facade.py:64-91 | an unknown id gives None and no change; otherwise only the entry under id changes, only whitelisted attributes change, and id and created_at stay |
| OldFacade.TouchKeepsAttr | part3/app_old/models/base.py:23-25 | save changes no attribute but the base ones |
| OldFacade.UpdateCheckedStores | part3/app_old/services/facade.py:151-178 | a checked update of a known id keeps the keys and the order, and either changes nothing or stores the saved patch under id |
| OldFacade.UpdateAsWrittenKeepsInvalidPatch | part3/app_old/services/facade.py:64-91 | as written, emptying a valid stored user's first_name raises, and the stored user keeps the empty name |
| OldFacade.SampleUserValid | part3/app_old/models/user.py:36-64 | the user of that example passes validate |
| OldFacade.UpdateCheckedIsAtomic | part3/app_old/services/facade.py:240-267 | the intended update never stores an object that fails validate, and a raise leaves the store as it was; the same holds at lines 299-325 |
| OldFacade.DeletePlaceAsWrittenNeverDeletes | part3/app_old/services/facade.py:180-185 | as written, delete_place fails on every input and never removes a place |
| OldFacade.DeletePlaceChecked | part3/app_old/services/facade.py:180-185 | the intended delete_place keeps the table well formed |
| OldFacade.DeletePlaceCheckedDeletes | part3/app_old/services/facade.py:180-185 | the intended delete_place removes a stored place and returns true, and raises NotFound otherwise |
| OldFacade.ReviewsByPlace | part3/app_old/services/facade.py:235-238 | exactly the stored reviews whose place_id is the argument, in storage order |
| OldFacade.AmenityItems | part3/app_old/services/facade.py:118-120 | the loop's items: none when "amenities" is absent, and otherwise the iteration of the value, so a string gives its characters and a dict its keys |
| OldFacade.AmenityItemsExamples | part3/app_old/services/facade.py:118-120 | `"amenities": ""` gives no items, `"ab"` gives "a" then "b", and a one-key dict gives its key |
| OldFacade.Get | part3/app_old/persistence/repository.py:114-124 | `repo.get(key)` for any payload value gives what the lookup function gives, TypeError included |
| OldFacade.Keys | part3/app_old/services/facade.py:118-124 | the ids of a list of amenity ids that all resolve |
| OldFacade.PutKeepsTidy | part3/app_old/persistence/repository.py:110-112 | storing an object of the repository's class under its own issued id keeps the repository's invariant |
| OldFacade.AddKeepsTidy | part3/app_old/persistence/repository.py:96-112 | add keeps the repository's invariant |
| OldFacade.DeleteKeepsTidy | part3/app_old/persistence/repository.py:153-166 | delete keeps the repository's invariant |
| OldFacade.UpdateKeepsTidy | part3/app_old/services/facade.py:64-91 | an update keeps the keys, and the ids and classes of the stored objects |
| OldFacade.ApplyUpdate | part3/app_old/services/facade.py:78-91 | the setattr loop, validate and save give the intended update's result and new state |
| OldFacade.UpdateIn | part3/app_old/services/facade.py:78-91 | the same on one of the facade's repositories, which keeps its invariant |
| OldFacade.AddTo | part3/app_old/persistence/repository.py:96-112 | add on one of the facade's repositories gives add's outcome and keeps the invariant |
| OldFacade.OnlyUsersHaveEmail | part3/app_old/persistence/repository.py:104-108 | only users have an email attribute |
| OldFacade.AddEntity | part3/app_old/services/facade.py:140 | adding a place, review or amenity always stores it under its id |
| OldFacade.ResolveAll | part3/app_old/services/facade.py:120-124 | the amenity loop succeeds iff every id names a stored amenity, and gives their ids; the first one that does not raises |
| OldFacade.KeysResolve | part3/app_old/services/facade.py:120-124 | every id of a resolving list names a stored amenity |
| OldFacade.BuildPlace | part3/app_old/services/facade.py:127-138 | the place is built from the payload and owner, and gets the amenities in list order without repeats |
| OldFacade.AttachAmenities | part3/app_old/services/facade.py:137-138 | the amenities become the old list with each id added in turn unless present, and the id and created_at stay |
| OldFacade.AttachReview | part3/app_old/services/facade.py:222 | the review id is added to the stored place unless present, and that place alone changes |
| OldFacade.HBnBFacade.constructor | part3/app_old/services/facade.py:21-30 | the facade starts with four distinct empty repositories |
| OldFacade.HBnBFacade.NewEntityBase | part3/app_old/models/base.py:17-21 | a base whose id no repository holds, with two successive clock readings |
| OldFacade.HBnBFacade.CreateUser | part3/app_old/services/facade.py:34-54 | a returned user is valid, has the payload's fields (is_admin False by default) and is stored under a new id; an email some stored user holds is refused; an error changes nothing |
| OldFacade.HBnBFacade.GetUser | part3/app_old/services/facade.py:56-58 | the stored user, or None |
| OldFacade.HBnBFacade.GetAllUsers | part3/app_old/services/facade.py:60-62 | all stored users in insertion order |
| OldFacade.HBnBFacade.UpdateUser | part3/app_old/services/facade.py:64-91 | gives the checked update over first_name, last_name and email |
| OldFacade.HBnBFacade.DeleteUser | part3/app_old/services/facade.py:93-95 | true iff the id was stored, and then it is removed |
| OldFacade.HBnBFacade.CreatePlace | part3/app_old/services/facade.py:98-141 | the owner and every listed amenity must exist, or a ValueError (a TypeError for a list or dict key) and no change; a returned place is valid, owned by that user, holds those amenities in order without repeats, and is stored under a new id |
| OldFacade.HBnBFacade.GetPlace | part3/app_old/services/facade.py:143-145 | the stored place, or None |
| OldFacade.HBnBFacade.GetAllPlaces | part3/app_old/services/facade.py:147-149 | all stored places in insertion order |
| OldFacade.HBnBFacade.UpdatePlace | part3/app_old/services/facade.py:151-178 | gives the checked update over title, description, price, latitude and longitude |
| OldFacade.HBnBFacade.DeletePlace | part3/app_old/services/facade.py:180-185 | delete_place as written: always an error, no change |
| OldFacade.HBnBFacade.DeletePlaceFixed | part3/app_old/services/facade.py:180-185 | delete_place as intended: NotFound for an unknown id, otherwise the place is removed |
| OldFacade.HBnBFacade.CreateReview | part3/app_old/services/facade.py:188-225 | the user and then the place must exist, or a ValueError (a TypeError for a list or dict key) and no change; a returned review is valid and stored under a new id, and its id is appended to the place's reviews |
| OldFacade.HBnBFacade.GetReview | part3/app_old/services/facade.py:227-229 | the stored review, or None |
| OldFacade.HBnBFacade.GetAllReviews | part3/app_old/services/facade.py:231-233 | all stored reviews in insertion order |
| OldFacade.HBnBFacade.GetReviewsByPlace | part3/app_old/services/facade.py:235-238 | exactly the stored reviews with that place_id |
| OldFacade.HBnBFacade.UpdateReview | part3/app_old/services/facade.py:240-267 | gives the checked update over text and rating |
| OldFacade.HBnBFacade.DeleteReview | part3/app_old/services/facade.py:269-271 | true iff the id was stored, and then it is removed |
| OldFacade.HBnBFacade.CreateAmenity | part3/app_old/services/facade.py:274-289 | fails iff the name is invalid; a returned amenity has the payload's name and is stored under a new id |
| OldFacade.HBnBFacade.GetAmenity | part3/app_old/services/facade.py:291-293 | the stored amenity, or None |
| OldFacade.HBnBFacade.GetAllAmenities | part3/app_old/services/facade.py:295-297 | all stored amenities in insertion order |
| OldFacade.HBnBFacade.UpdateAmenity | part3/app_old/services/facade.py:299-325 | gives the checked update over name |
| OldFacade.HBnBFacade.DeleteAmenity | part3/app_old/services/facade.py:327-329 | true iff the id was stored, and then it is removed |
| OldFacade.FacadeSingleton.Get | part3/app_old/services/facade.py:16-25 | the first call builds a new valid facade, and every later call returns that same object |
| AppBase.Build | part3/hbnb/app/models/user.py:16-21 | a new object has the fresh id, one clock reading for both timestamps, and its subclass's attributes |
| AppBase.Save | part3/hbnb/app/models/user.py:30 | save refreshes updated_at alone |
| AppBase.Settable | part2/hbnb/app/persistence/repository.py:18-20 | exactly the kwargs whose key is not id, created_at or updated_at |
| AppBase.Patch | part2/hbnb/app/persistence/repository.py:18-20 | every settable kwarg is set, every other attribute keeps its value, and the base attributes stay |
| AppBase.PatchIdempotent | part2/hbnb/app/persistence/repository.py:18-20 | setting the same kwargs twice is setting them once, and the protected ones make no difference |
| AppBase.SetAttrs | part2/hbnb/app/persistence/repository.py:18-20 | the setattr loop gives the patch |
| AppBase.PyLen | part3/hbnb/app/models/user.py:13 | `len(v)` is defined on strings, lists and dicts only |
| AppUser.NewMeaning | part3/hbnb/app/models/user.py:8-24 | a user is built iff both names and the email are truthy, the email matches the pattern, and a truthy password is a string of at least 6 characters; its fields are the arguments |
| AppUser.New | part3/hbnb/app/models/user.py:8-24 | the User constructor: identity checks, the password length check, the attributes, then set_password; NewMeaning and NewOrder give its meaning |
| AppUser.SetPassword | part3/hbnb/app/models/user.py:26-30 | set_password: the length check, then the hash and a save; SetPasswordEffect gives its meaning |
| AppUser.CheckPassword | part3/hbnb/app/models/user.py:32-35 | check_password: a stored hash that accepts the password; NoPasswordNoHash and NewPasswordChecks give its meaning |
| AppUser.NewPart2 | part2/hbnb/app/models/user.py:7-15 | the part2 User constructor; Part2Agrees gives its meaning |
| AppUser.CheckIdentityMeaning | part3/hbnb/app/models/user.py:9-12 | the identity checks pass iff the names are truthy and the email is a string matching the pattern |
| AppUser.NewOrder | part3/hbnb/app/models/user.py:8-24 | the first failing check decides the error: missing fields, then email format, then password length |
| AppUser.NoPasswordNoHash | part3/hbnb/app/models/user.py:18-24 | without a password the hash is None and no password checks |
| AppUser.SetPasswordEffect | part3/hbnb/app/models/user.py:26-30 | an empty or short password is rejected; afterwards exactly that password checks, updated_at is refreshed, and nothing else changes |
| AppUser.NewPasswordChecks | part3/hbnb/app/models/user.py:32-35 | the password given to the constructor is the one check_password accepts |
| AppUser.ToDict | part3/hbnb/app/models/user.py:37-47 | exactly the id, the names, email, is_admin and the timestamps, with no password or hash |
| AppUser.ToDictSafe | part3/hbnb/app/models/user.py:49-56 | exactly id, names, email and is_admin, each as in to_dict |
| AppUser.Part2Agrees | part2/hbnb/app/models/user.py:7-15 | the part2 user accepts exactly the identities the part3 user accepts without a password, and holds just the three fields |
| AppUser.ToDictPart2 | part2/hbnb/app/models/user.py:17-26 | the part2 to_dict: id, names, email and the timestamps |
| AppPlace.InRange | part2/hbnb/app/models/place.py:9-12 | a chained comparison passes iff the value is a number in the closed range |
| AppPlace.NewPlaceMeaning | part2/hbnb/app/models/place.py:4-17 | a place is built iff the title is truthy, the price a number above 0, and both coordinates numbers in their closed ranges, checked in that order; its fields are the arguments |
| AppPlace.NewPlace | part2/hbnb/app/models/place.py:4-17 | the Place constructor: title, price, latitude, longitude checks, then the attributes; NewPlaceMeaning gives its meaning |
| AppPlace.NewAmenity | part2/hbnb/app/models/amenity.py:4-9 | an amenity is built iff its name is truthy, and the description is stored unchecked |
| AppPlace.AmenityDict | part2/hbnb/app/models/amenity.py:11-19 | the dict has exactly id, name, description and the timestamps |
| AppPlace.AmenityDictRoundTrip | part2/hbnb/app/models/amenity.py:4-19 | the dict of a new amenity gives back the constructor's name and description |
| AppReview.NewMeaning | part3/hbnb/app/models/review.py:4-20 | a review is built iff the text is truthy, both ids are among the known ids, and the rating (5 when left out) is an int in [1, 5]; its fields are the arguments |
| AppReview.New | part3/hbnb/app/models/review.py:4-20 | the Review constructor: text, user, place and rating checks, then the attributes; NewMeaning and NewOrder give its meaning |
| AppReview.NewPart2 | part2/hbnb/app/models/review.py:4-15 | the part2 Review constructor; Part2Meaning gives its meaning |
| AppReview.NewOrder | part3/hbnb/app/models/review.py:4-20 | the first failing check decides the error: text, user, place, rating; the default passes, and 0 and 6 do not |
| AppReview.ToDict | part3/hbnb/app/models/review.py:22-32 | exactly id, text, rating, user_id, place_id and the timestamps |
| AppReview.Part2Meaning | part2/hbnb/app/models/review.py:4-15 | the part2 review makes the same checks, stores only text, user_id and place_id, and ignores a rating |
| AppRepository.AddSpec | part2/hbnb/app/persistence/repository.py:5-6 | add keeps every object under its own id |
| AppRepository.GetSpec | part2/hbnb/app/persistence/repository.py:8-9 | get finds an object iff its id is stored, and gives that object |
| AppRepository.UpdateSpec | part2/hbnb/app/persistence/repository.py:14-22 | update keeps every object under its own id |
| AppRepository.Repository.constructor | part2/hbnb/app/persistence/repository.py:2-3 | a new repository is empty |
| AppRepository.Repository.Add | part2/hbnb/app/persistence/repository.py:5-6 | gives add's new state |
| AppRepository.Repository.Get | part2/hbnb/app/persistence/repository.py:8-9 | the stored object, or None |
| AppRepository.Repository.GetAll | part2/hbnb/app/persistence/repository.py:11-12 | the stored values in insertion order |
| AppRepository.Repository.Update | part2/hbnb/app/persistence/repository.py:14-22 | gives update's result and new state, with the clock read only when the id is found |
| AppRepository.AddThenGet | part2/hbnb/app/persistence/repository.py:5-12 | after add(obj), get(obj.id) returns obj, get_all lists it, and every other id keeps its object |
| AppRepository.AddListing | part2/hbnb/app/persistence/repository.py:5-12 | adding a new id appends to get_all, and adding a known id replaces that object where it stands |
| AppRepository.GetAllExact | part2/hbnb/app/persistence/repository.py:11-12 | get_all lists exactly the stored objects, once each |
| AppRepository.UpdateEffect | part2/hbnb/app/persistence/repository.py:14-22 | an unknown id gives None and no change; a known one keeps id, class and created_at, sets exactly the unprotected kwargs, refreshes updated_at, keeps the order, and leaves every other entry |
| AppRepository.UpdateIgnoresProtected | part2/hbnb/app/persistence/repository.py:18-21 | the protected kwargs make no difference, and repeating an update changes only updated_at |
| AppRepository.Registry.GetRepository | part2/hbnb/app/persistence/repository.py:26-29 | the kind's repository, created empty on first use and the same object on every later call |
| AppService.MissingKey | part3/hbnb/app/services/facade.py:21-24 | the first key of the argument list missing from the dict, so that `data[...]` raises KeyError for it; none iff every key is present |
| AppService.Stored | part3/hbnb/app/services/facade.py:28 | the repository after adding a constructed object, and unchanged after a failure |
| AppService.IdsOf | part3/hbnb/app/services/facade.py:87-88 | the list comprehension of ids, position by position |
| AppService.Matching | part3/hbnb/app/services/facade.py:40-50 | a filtered list is no longer than the list it filters |
| AppService.AppFacade.constructor | part3/hbnb/app/services/facade.py:8-12 | the four repositories come from the registry, and earlier repositories are left as they were |
| AppService.AppFacade.CreateUser | part3/hbnb/app/services/facade.py:15-29 | the result is the user made from the input, which is stored when made; only a dict draws an id and clock readings |
| AppService.AppFacade.GetAllUsers | part3/hbnb/app/services/facade.py:31-32 | all stored users in insertion order |
| AppService.AppFacade.GetUser | part3/hbnb/app/services/facade.py:34-35 | the stored user, or None |
| AppService.AppFacade.UpdateUser | part3/hbnb/app/services/facade.py:37-38 | gives the repository update's result and new state |
| AppService.AppFacade.GetPlacesByUser | part3/hbnb/app/services/facade.py:40-42 | the stored places whose owner_id is the user's id |
| AppService.AppFacade.GetReviewsByUser | part3/hbnb/app/services/facade.py:44-46 | the stored reviews whose user_id is the user's id |
| AppService.AppFacade.GetReviewsByPlace | part3/hbnb/app/services/facade.py:48-50 | the stored reviews whose place_id is the place's id |
| AppService.AppFacade.CreatePlace | part3/hbnb/app/services/facade.py:53-67 | the result is the place made from the input, which is stored when made |
| AppService.AppFacade.GetAllPlaces | part3/hbnb/app/services/facade.py:69-70 | all stored places in insertion order |
| AppService.AppFacade.GetPlace | part3/hbnb/app/services/facade.py:72-73 | the stored place, or None |
| AppService.AppFacade.UpdatePlace | part3/hbnb/app/services/facade.py:75-76 | gives the repository update's result and new state |
| AppService.AppFacade.DeletePlace | part3/hbnb/app/services/facade.py:78-79 | always raises AttributeError, because the repository has no delete |
| AppService.AppFacade.CreateReview | part3/hbnb/app/services/facade.py:82-99 | the result is the review made from the input against the stored user and place ids, which is stored when made |
| AppService.AppFacade.GetAllReviews | part3/hbnb/app/services/facade.py:101-102 | all stored reviews in insertion order |
| AppService.AppFacade.GetReview | part3/hbnb/app/services/facade.py:104-105 | the stored review, or None |
| AppService.AppFacade.UpdateReview | part3/hbnb/app/services/facade.py:107-108 | gives the repository update's result and new state |
| AppService.AppFacade.DeleteReview | part3/hbnb/app/services/facade.py:110-111 | always raises AttributeError, because the repository has no delete |
| AppService.AppFacade.CreateAmenity | part3/hbnb/app/services/facade.py:114-123 | the result is the amenity made from the input, which is stored when made |
| AppService.AppFacade.GetAllAmenities | part3/hbnb/app/services/facade.py:125-126 | all stored amenities in insertion order |
| AppService.AppFacade.GetAmenity | part3/hbnb/app/services/facade.py:128-129 | the stored amenity, or None |
| AppService.AppFacade.UpdateAmenity | part3/hbnb/app/services/facade.py:131-132 | gives the repository update's result and new state |
| AppService.AppFacade.DeleteAmenity | part3/hbnb/app/services/facade.py:134-135 | always raises AttributeError, because the repository has no delete |
| AppService.OpenRepositories | part3/hbnb/app/services/facade.py:9-12 | four distinct repositories, registered under their kinds |
| AppService.FacadeHolder.GetFacade | part3/hbnb/app/services/facade.py:138-142 | the first call builds the facade, and every later call returns it with the registry untouched |
| AppService.StoredEffect | part3/hbnb/app/services/facade.py:15-29 | a failed create stores nothing; a successful one stores the object under its id and leaves every other id alone |
| AppService.UserFromMeaning | part3/hbnb/app/services/facade.py:15-29 | from a dict, a missing name key raises KeyError in argument order, is_admin defaults to False and a given password is the one that checks; a User instance is stored unchecked and any other instance is not subscriptable |
| AppService.UserFrom | part3/hbnb/app/services/facade.py:15-29 | the User create_user makes from its input; UserFromMeaning gives its meaning |
| AppService.PlaceFromMeaning | part3/hbnb/app/services/facade.py:53-67 | the four keys are required in order and the Place constructor decides; owner_id is copied unchecked and does not affect whether the place is made |
| AppService.PlaceFrom | part3/hbnb/app/services/facade.py:53-67 | the Place create_place makes from its input; PlaceFromMeaning gives its meaning |
| AppService.IdsOfStored | part3/hbnb/app/services/facade.py:87-88 | a value is among the listed ids iff it is a stored id |
| AppService.ReviewFromMeaning | part3/hbnb/app/services/facade.py:82-99 | a review is made only when user_id and place_id name a stored user and place; the rating defaults to 5 and an explicit None is rejected |
| AppService.ReviewFrom | part3/hbnb/app/services/facade.py:82-99 | the Review create_review makes from its input; ReviewFromMeaning gives its meaning |
| AppService.AmenityFromMeaning | part3/hbnb/app/services/facade.py:114-123 | the name is required, the amenity is made iff it is truthy, and the description defaults to the empty string |
| AppService.AmenityFrom | part3/hbnb/app/services/facade.py:114-123 | the Amenity create_amenity makes from its input; AmenityFromMeaning gives its meaning |
| AppService.MatchingExact | part3/hbnb/app/services/facade.py:40-50 | an object is listed iff it is stored and its attribute is the given id |
| AppService.MatchingAppend | part3/hbnb/app/services/facade.py:40-50 | filtering distributes over concatenation, so it keeps order |
| AppService.CreatedPlaceListedForOwner | part3/hbnb/app/services/facade.py:40-67 | a place created with a user's id as owner_id is listed last by get_places_by_user for that user |
| AppService.UpdateBypassesChecks | part3/hbnb/app/services/facade.py:75-76 | update checks nothing: a stored place's price can be set to a value the constructor rejects |
| AppService.UpdatePasswordKeepsHash | part3/hbnb/app/services/facade.py:37-38 | a password kwarg is stored as a plain attribute, and check_password is unchanged |
| Pagination.SliceBound | part2/hbnb/utils.py:4-6 | a Python slice bound adjusted to a length: never past the end, and the bound itself when non-negative and within |
| Pagination.Slice | part2/hbnb/utils.py:6 | a slice is no longer than the sequence |
| Pagination.Paginate | part2/hbnb/utils.py:3-7 | the total is the length of the list |
| Pagination.PageWindow | part2/hbnb/utils.py:3-7 | a page numbered from 1 with a non-negative size is the window of items from (page-1)*per_page to page*per_page, cut at the end |
| Pagination.PageBound | part2/hbnb/utils.py:3-7 | with a non-negative size no page is longer than per_page |
| Pagination.PastTheEnd | part2/hbnb/utils.py:3-7 | a page past the end is empty, and the total is still the length |
| Pagination.PagesArePrefix | part2/hbnb/utils.py:3-7 | pages 1 to k together are the first k*per_page items |
| Pagination.PagesOrdered | part2/hbnb/utils.py:3-7 | an earlier page ends no later than a later page begins |
| Pagination.PagesDisjoint | part2/hbnb/utils.py:3-7 | over distinct items, two different pages share no item |
| Pagination.NonPositivePages | part2/hbnb/utils.py:3-7 | page 0 is always empty, and page -1 is a window counted from the end |
| Pagination.NegativePerPage | part2/hbnb/utils.py:3-7 | with per_page -1, page 1 of three items holds two of them |

## Left out

- Ids are strings in every model. A Python dict also accepts other hashable keys. A lookup with a list or dict key raises TypeError, as Python's does; any other non-string key finds nothing.
- HbnbBase.BaseFrom: refuses a non-string "id" keyword with TypeError, because the model's ids are strings; the dataclass does not enforce its `str` annotation, so Python would build and store such an object.
- Iterate: a Value does not record the insertion order of a dict, so a dict is iterated in lexicographic key order. The hbnb amenity checks do not depend on that order. The order of an expanded place's amenities, and which unknown key the app_old create_place names in its error, do.
- Dict iteration order: the setattr loops are modelled as one patch of the whole payload, so the order in which payload keys are set has no effect. This is proved step by step for distinct keys.
- A payload key that names a method or property is not modelled as overwriting it. In app_old, setattr of an ill-typed value on an attribute the model types (the id, the timestamps, a reference or a list of ids) is not represented; validate reads those attributes only through their ids.
- MemoryRepo._bucket creates its bucket with `setdefault` on every read; the model creates buckets only on writes, which no reader can tell apart.
- uuid4 and datetime.now are the `IdSource` and `Clock` objects. Ids are numerals and times are logical integers, not ISO strings. Every create with a dict payload draws an id and its clock readings before any key is read or checked, so a construction that fails has still used them; the source reads the keys and validates first.
- Python floats are modelled as reals (`Num`), so NaN and the infinities are not represented. A NaN price fails every `price < 0` or `price <= 0` comparison and so passes the three place price checks in Python, while a NaN coordinate fails the range checks.
- HbnbPlace.ValidateMeaning: its iff holds over reals; a place with a NaN price is valid in Python but not in the lemma, because NaN is not a real.
- OldPlace.Validate: its iff with ValidPlace holds over reals; a NaN price passes `self.price <= 0` in Python but is not a real above 0.
- AppPlace.NewPlaceMeaning: its iff holds over reals; a NaN price passes `price <= 0` and builds a place in Python but is not a real above 0.
- Python's bool is a subclass of int, so `isinstance(True, int)` holds. The number checks of the models follow `AsNumber` and do not treat booleans as numbers.
- The `$` of the app_old email pattern also matches before a final newline; the model treats `$` as the end of the string.
- part3/hbnb/app/models/base_model.py, part3/hbnb/app/models/place.py and part3/hbnb/app/models/amenity.py are not part of this model. The app facade's Place and Amenity are the part2 classes of the same name.
- Value equality stands for Python's `==` on entities; objects are compared by their contents, not their identity.
- Error messages of KeyError and TypeError are modelled by their kind; only the ValueError and BadRequest messages the source spells out are reproduced, and a float interpolated into one of them is rendered as a placeholder rather than as Python prints it.
- `if not obj` on a repository result is modelled as a None test: entity objects are always truthy.
- Aliasing: the repositories return the stored objects themselves, and a caller that mutates one changes the stored entry. The model returns values, and the facades' writes are modelled as explicit repository updates.
- The app facade's delete_place, delete_review and delete_amenity call a `delete` that the part2 Repository does not define, so they are modelled as always raising AttributeError.
- bcrypt is modelled by an injective stand-in for its hash and check.
- The errors module of part3/hbnb is not part of this model; NotFound and BadRequest are plain error values.
- HTTP routing, JSON (de)serialisation, authentication and the JavaScript front end are outside the core.

## Findings

| source | as written | input that shows it | evidently intended | confidence | as-written member | corrected member |
|---|---|---|---|---|---|---|
| part3/app_old/services/facade.py:180-185 | delete_place raises `NotFoundError`, a name the module never defines, for an unknown id, and calls `self.repo.delete`, an attribute the facade lacks, for a known one | any id, stored or not | NotFound for an unknown id, otherwise `place_repo.delete(place_id)` | not executed | OldFacade.DeletePlaceAsWrittenNeverDeletes | OldFacade.DeletePlaceCheckedDeletes |
| part3/app_old/services/facade.py:78-91 | update_user sets the whitelisted attributes on the stored object before validate, so an invalid patch raises but stays stored; update_place, update_review and update_amenity do the same | a stored valid user and `{"first_name": ""}` | validate a patched copy and store it only when valid | not executed | OldFacade.UpdateAsWrittenKeepsInvalidPatch | OldFacade.UpdateCheckedIsAtomic |
| part3/hbnb/facade.py:15-25 | create_user's body is not indented under its `def`; read as indented, it calls `user.hash_password`, which the User dataclass does not define, for every truthy password, and validate demands one | `{"email": "a@b.c", "password": "secret"}` | hash the password into the stored user and return the public view | not executed | HbnbService.CreateUserAsWrittenRejectsValidUser | HbnbService.CreateUserEffect |
| part3/hbnb/facade.py:70-81 | the update_* methods setattr on the stored object before validate, so a failed validate leaves the invalid object in the repository | a stored amenity and `{"name": ""}` | validate a patched copy and store it only when valid | not executed | HbnbService.UpdateAsWrittenKeepsInvalidPatch | HbnbService.UpdateStoredKeepsValid |
