/** The in-memory Repository of part2/hbnb/app/persistence/repository.py, which the
    part3/hbnb/app service uses: one insertion-ordered dict from id to object, and a
    module-level dict `_repos` that hands out one repository per kind. */
module AppRepository {
  import opened Common
  import opened Tables
  import opened AppBase

  /** The dict holds every object under its own id. */
  ghost predicate Keyed(t: Table<AppObj>)
  {
    WellFormed(t) && forall k :: k in t.items ==> t.items[k].id == k
  }

  /** The contents of a repository. */
  type Store = t: Table<AppObj> | Keyed(t) witness Empty()

  /** add(obj): `_objects[obj.id] = obj`, overwriting an entry with that id. */
  function AddSpec(t: Table<AppObj>, o: AppObj): (r: Table<AppObj>)
    requires Keyed(t)
    ensures Keyed(r)
  {
    Put(t, o.id, o)
  }

  /** get(obj_id): `_objects.get(obj_id)`. */
  function GetSpec(t: Table<AppObj>, id: string): (r: Option<AppObj>)
    ensures r.Some? <==> id in t.items
    ensures r.Some? ==> r.value == t.items[id]
  {
    if id in t.items then Some(t.items[id]) else None
  }

  /** update(obj_id, **kwargs) with `obj.save()` reading the clock at `now`: None when
      the id is unknown; otherwise the stored object itself gets every unprotected
      kwarg and a new updated_at. */
  function UpdateSpec(t: Table<AppObj>, id: string, kw: map<string, Value>, now: nat): (r: (Option<AppObj>, Table<AppObj>))
    requires Keyed(t)
    ensures Keyed(r.1)
  {
    if id !in t.items then (None, t)
    else
      var o := Save(Patch(t.items[id], kw), now);
      (Some(o), Put(t, id, o))
  }

  class Repository {
    var objects: Store

    constructor ()
      ensures objects == Empty()
    {
      objects := Empty();
    }

    method Add(obj: AppObj)
      modifies this
      ensures objects == AddSpec(old(objects), obj)
    {
      objects := Put(objects, obj.id, obj);
    }

    method Get(id: string) returns (r: Option<AppObj>)
      ensures r == GetSpec(objects, id)
    {
      r := if id in objects.items then Some(objects.items[id]) else None;
    }

    /** get_all(): the values in insertion order. */
    method GetAll() returns (r: seq<AppObj>)
      ensures r == Values(objects)
    {
      r := Values(objects);
    }

    /** update(obj_id, **kwargs); the clock is read by `save()`, so only when the id
        is found. */
    method Update(id: string, kw: map<string, Value>, clock: Clock) returns (r: Option<AppObj>)
      modifies this, clock
      ensures (r, objects) == UpdateSpec(old(objects), id, kw, old(clock.time) + 1)
      ensures clock.time == if id in old(objects.items) then old(clock.time) + 1 else old(clock.time)
    {
      var found := Get(id);
      if found.None? {
        return None;
      }
      var o := SetAttrs(found.value, kw);
      var now := clock.Now();
      o := Save(o, now);
      objects := Put(objects, id, o);
      r := Some(o);
    }
  }

  // ----- what the repository promises -----

  /** After add(obj), get(obj.id) returns obj, get_all() lists it, and every other id
      keeps its object. */
  lemma {:induction false} AddThenGet(t: Table<AppObj>, o: AppObj, other: string)
    requires Keyed(t)
    ensures GetSpec(AddSpec(t, o), o.id) == Some(o)
    ensures o in Values(AddSpec(t, o))
    ensures other != o.id ==> GetSpec(AddSpec(t, o), other) == GetSpec(t, other)
  {
    ValuesExact(AddSpec(t, o), o);
  }

  /** add of a new id appends to get_all(); add of a known id replaces that object
      where it stands. */
  lemma {:induction false} AddListing(t: Table<AppObj>, o: AppObj)
    requires Keyed(t)
    ensures o.id !in t.items ==> Values(AddSpec(t, o)) == Values(t) + [o]
    ensures o.id in t.items ==> AddSpec(t, o).order == t.order && |Values(AddSpec(t, o))| == |Values(t)|
  {
    PutValues(t, o.id, o);
  }

  /** get_all() lists exactly the stored objects, once each. */
  lemma {:induction false} GetAllExact(t: Table<AppObj>, x: AppObj)
    requires Keyed(t)
    ensures x in Values(t) <==> GetSpec(t, x.id) == Some(x)
    ensures |Values(t)| == |t.items|
  {
    ValuesExact(t, x);
    NoDupCount(t);
  }

  lemma {:induction false} NoDupCount(t: Table<AppObj>)
    requires WellFormed(t)
    ensures |t.items| == |t.order|
  {
    var n := |t.order|;
    assert t.items.Keys == set i | 0 <= i < n :: t.order[i];
    SetOfDistinct(t.order);
  }

  lemma {:induction false} SetOfDistinct(s: seq<string>)
    requires NoDup(s)
    ensures |set i | 0 <= i < |s| :: s[i]| == |s|
  {
    if s != [] {
      var tail := s[1..];
      assert NoDup(tail) by {
        forall i, j | 0 <= i < j < |tail| ensures tail[i] != tail[j] {
          assert s[i + 1] != s[j + 1];
        }
      }
      SetOfDistinct(tail);
      var whole := set i | 0 <= i < |s| :: s[i];
      var rest := set i | 0 <= i < |tail| :: tail[i];
      assert whole == rest + {s[0]} by {
        forall x | x in whole ensures x in rest + {s[0]} {
          var i :| 0 <= i < |s| && s[i] == x;
          if i > 0 { assert tail[i - 1] == x; }
        }
        forall x | x in rest ensures x in whole {
          var i :| 0 <= i < |tail| && tail[i] == x;
          assert s[i + 1] == x;
        }
      }
      forall i | 0 <= i < |tail|
        ensures tail[i] != s[0]
      {
        assert tail[i] == s[i + 1];
      }
      assert s[0] !in rest;
    }
  }

  /** update of an unknown id returns None and changes nothing; of a known id it keeps
      the id, class and created_at, sets exactly the unprotected kwargs, refreshes
      updated_at, keeps the listing order and leaves every other id alone. No check of
      the new values is made. */
  lemma {:induction false} UpdateEffect(t: Table<AppObj>, id: string, kw: map<string, Value>, now: nat, other: string)
    requires Keyed(t)
    ensures id !in t.items ==> UpdateSpec(t, id, kw, now) == (None, t)
    ensures id in t.items ==>
              var o := t.items[id];
              var r := UpdateSpec(t, id, kw, now);
              && r.0.Some? && GetSpec(r.1, id) == r.0
              && r.0.value.id == id && r.0.value.cls == o.cls && r.0.value.createdAt == o.createdAt
              && r.0.value.updatedAt == now
              && r.0.value.attrs.Keys == o.attrs.Keys + (kw.Keys - Protected)
              && (forall k :: k in kw && k !in Protected ==> Attr(r.0.value, k) == kw[k])
              && (forall k :: k in o.attrs && k !in kw ==> r.0.value.attrs[k] == o.attrs[k])
              && r.1.order == t.order
              && (other != id ==> GetSpec(r.1, other) == GetSpec(t, other))
  {
  }

  /** The protected kwargs make no difference, and repeating an update changes only
      updated_at. */
  lemma {:induction false} UpdateIgnoresProtected(t: Table<AppObj>, id: string, kw: map<string, Value>, now: nat, later: nat)
    requires Keyed(t)
    ensures UpdateSpec(t, id, Settable(kw), now) == UpdateSpec(t, id, kw, now)
    ensures var once := UpdateSpec(t, id, kw, now);
            var twice := UpdateSpec(once.1, id, kw, later);
            id in t.items ==> twice.0 == Some(once.0.value.(updatedAt := later))
  {
    if id in t.items {
      PatchIdempotent(t.items[id], kw);
      var once := UpdateSpec(t, id, kw, now);
      assert once.1.items[id] == once.0.value;
      assert Patch(once.0.value, kw) == Patch(t.items[id], kw).(updatedAt := now);
    } else {
      PatchIdempotent(AppObj("", id, 0, 0, map[]), kw);
    }
  }

  /** `_repos`: the repository of each kind, one object per kind. */
  class Registry {
    var repos: map<string, Repository>

    ghost predicate Valid()
      reads this
    {
      forall a, b :: a in repos && b in repos && a != b ==> repos[a] != repos[b]
    }

    constructor ()
      ensures Valid() && repos == map[]
    {
      repos := map[];
    }

    /** get_repository(kind): the kind's repository, created empty on first use. */
    method GetRepository(kind: string) returns (r: Repository)
      requires Valid()
      modifies this
      ensures Valid()
      ensures kind in old(repos) ==> r == old(repos)[kind] && repos == old(repos)
      ensures kind !in old(repos) ==> fresh(r) && r.objects == Empty() && repos == old(repos)[kind := r]
      ensures repos.Keys == old(repos).Keys + {kind} && repos[kind] == r
      ensures forall k :: k in old(repos) ==> repos[k] == old(repos)[k]
    {
      if kind !in repos {
        var created := new Repository();
        repos := repos[kind := created];
      }
      r := repos[kind];
    }
  }
}
