/** InMemoryRepository of part3/app_old/persistence/repository.py: a dict from id to
    object. Python dicts keep insertion order, which get_all and get_by_attribute
    expose, so the store keeps its keys in insertion order beside the map. The pure
    functions below give each operation's outcome and new store; the class's methods
    are proved to compute exactly those. */
module OldRepository {
  import opened Common
  import opened Tables
  import opened OldObjects

  /** The `_storage` dict: a map from id to object with its key order. */
  type Store = Table<Obj>

  /** hasattr(o, name) and getattr(o, name) == value. */
  predicate Matches(o: Obj, name: string, value: Value)
  {
    HasAttr(o, name) && GetAttr(o, name) == value
  }

  /** The first object of the sequence that matches, if any. */
  function FirstMatch(vals: seq<Obj>, name: string, value: Value): Option<Obj>
  {
    if vals == [] then None
    else if Matches(vals[0], name, value) then Some(vals[0])
    else FirstMatch(vals[1..], name, value)
  }

  /** FirstMatch is the first match: its result matches and nothing before it does;
      no result means nothing matches. */
  lemma {:induction false} FirstMatchCorrect(vals: seq<Obj>, name: string, value: Value)
    ensures FirstMatch(vals, name, value).None? <==> forall i :: 0 <= i < |vals| ==> !Matches(vals[i], name, value)
    ensures FirstMatch(vals, name, value).Some? ==>
              exists i :: 0 <= i < |vals| && vals[i] == FirstMatch(vals, name, value).value
                          && Matches(vals[i], name, value)
                          && forall j :: 0 <= j < i ==> !Matches(vals[j], name, value)
  {
    if vals != [] {
      FirstMatchCorrect(vals[1..], name, value);
      if !Matches(vals[0], name, value) && FirstMatch(vals, name, value).Some? {
        var i :| 0 <= i < |vals[1..]| && vals[1..][i] == FirstMatch(vals, name, value).value
                 && Matches(vals[1..][i], name, value)
                 && forall j :: 0 <= j < i ==> !Matches(vals[1..][j], name, value);
        assert vals[i + 1] == vals[1..][i];
        forall j | 0 <= j < i + 1 ensures !Matches(vals[j], name, value) {
          if j > 0 { assert vals[j] == vals[1..][j - 1]; }
        }
      }
      if FirstMatch(vals, name, value).None? {
        forall i | 0 <= i < |vals| ensures !Matches(vals[i], name, value) {
          if i > 0 { assert vals[i] == vals[1..][i - 1]; }
        }
      }
    }
  }

  /** The search from position i looks at vals[i] first, and past it when it does not match. */
  lemma FirstMatchStep(vals: seq<Obj>, i: int, name: string, value: Value)
    requires 0 <= i < |vals|
    ensures FirstMatch(vals[i..], name, value)
            == if Matches(vals[i], name, value) then Some(vals[i]) else FirstMatch(vals[i + 1..], name, value)
  {
    assert vals[i..][0] == vals[i];
    assert vals[i..][1..] == vals[i + 1..];
  }

  /** The email already held by another object: add's uniqueness check. */
  predicate EmailTaken(s: Store, obj: Obj)
    requires WellFormed(s)
  {
    HasAttr(obj, "email")
    && var existing := FirstMatch(Values(s), "email", GetAttr(obj, "email"));
       existing.Some? && Id(existing.value) != Id(obj)
  }

  function EmailExists(obj: Obj): Error
    requires HasAttr(obj, "email")
  {
    ValueError("Email " + PyStr(GetAttr(obj, "email")) + " already exists")
  }

  /** add(obj): ValueError when the email is taken, and otherwise stored under its id. */
  function AddSpec(s: Store, obj: Obj): (r: (Outcome, Store))
    requires WellFormed(s)
    ensures WellFormed(r.1)
  {
    if EmailTaken(s, obj) then (Fail(EmailExists(obj)), s)
    else (Pass, Put(s, Id(obj), obj))
  }

  /** update(obj_id, data): None for an unknown id; otherwise every key of data that is
      an attribute of the stored object is set, with no key protected and no save. */
  function UpdateSpec(s: Store, id: string, data: Payload): (r: (Option<Obj>, Store))
    requires WellFormed(s)
    ensures WellFormed(r.1)
  {
    if id !in s.items then (None, s)
    else
      var o := Patch(s.items[id], Restrict(data, Attrs(s.items[id])));
      (Some(o), Put(s, id, o))
  }

  /** delete(obj_id): true and the entry gone iff it was there. */
  function DeleteSpec(s: Store, id: string): (r: (bool, Store))
    requires WellFormed(s)
    ensures WellFormed(r.1)
  {
    if id in s.items then (true, Remove(s, id)) else (false, s)
  }

  // ----- properties of the operations -----

  /** After a successful add, get(obj.id) returns obj and get_all contains it. */
  lemma AddThenGet(s: Store, obj: Obj)
    requires WellFormed(s)
    requires AddSpec(s, obj).0 == Pass
    ensures var t := AddSpec(s, obj).1;
            Id(obj) in t.items && t.items[Id(obj)] == obj && obj in Values(t)
  {
    var t := AddSpec(s, obj).1;
    var i :| 0 <= i < |t.order| && t.order[i] == Id(obj);
    assert Values(t)[i] == obj;
  }

  /** Objects without an email attribute are never refused. */
  lemma AddWithoutEmail(s: Store, obj: Obj)
    requires WellFormed(s) && !HasAttr(obj, "email")
    ensures AddSpec(s, obj) == (Pass, Put(s, Id(obj), obj))
  {
  }

  /** Every stored object sits under its own id. */
  predicate KeysAreIds(s: Store)
  {
    forall k :: k in s.items ==> Id(s.items[k]) == k
  }

  /** No two stored objects share an email. */
  predicate UniqueEmails(s: Store)
  {
    forall k1, k2 :: k1 in s.items && k2 in s.items && k1 != k2
      && HasAttr(s.items[k1], "email") && HasAttr(s.items[k2], "email")
      ==> GetAttr(s.items[k1], "email") != GetAttr(s.items[k2], "email")
  }

  lemma ValuesMember(s: Store, i: int)
    requires WellFormed(s) && 0 <= i < |s.order|
    ensures Values(s)[i] == s.items[s.order[i]]
  {
  }

  /** A matching value is stored under some key. */
  lemma {:induction false} MatchStored(s: Store, name: string, value: Value)
    requires WellFormed(s)
    requires FirstMatch(Values(s), name, value).Some?
    ensures exists k :: k in s.items && s.items[k] == FirstMatch(Values(s), name, value).value
                        && Matches(s.items[k], name, value)
  {
    FirstMatchCorrect(Values(s), name, value);
    var i :| 0 <= i < |Values(s)| && Values(s)[i] == FirstMatch(Values(s), name, value).value
             && Matches(Values(s)[i], name, value);
    ValuesMember(s, i);
  }

  /** With ids as keys and emails unique, add refuses exactly when an object with a
      different id already holds the email; the refusal stores nothing. Otherwise the
      object is stored under its id, overwriting the entry there (in particular when
      it is the current holder of the email). */
  lemma {:induction false} AddEmailUniqueness(s: Store, obj: Obj)
    requires WellFormed(s) && KeysAreIds(s) && UniqueEmails(s)
    requires HasAttr(obj, "email")
    ensures AddSpec(s, obj).0.Fail? <==>
              exists k :: k in s.items && k != Id(obj) && HasAttr(s.items[k], "email")
                          && GetAttr(s.items[k], "email") == GetAttr(obj, "email")
    ensures AddSpec(s, obj).0.Fail? ==> AddSpec(s, obj).1 == s
    ensures AddSpec(s, obj).0.Pass? ==> AddSpec(s, obj).1.items == s.items[Id(obj) := obj]
  {
    var e := GetAttr(obj, "email");
    FirstMatchCorrect(Values(s), "email", e);
    if AddSpec(s, obj).0.Fail? {
      MatchStored(s, "email", e);
    } else if FirstMatch(Values(s), "email", e).Some? {
      MatchStored(s, "email", e);
      var k2 :| k2 in s.items && s.items[k2] == FirstMatch(Values(s), "email", e).value
                && Matches(s.items[k2], "email", e);
      assert k2 == Id(obj);
      forall k | k in s.items && k != Id(obj) && HasAttr(s.items[k], "email")
        ensures GetAttr(s.items[k], "email") != e
      {
      }
    } else {
      forall k | k in s.items && k != Id(obj) && HasAttr(s.items[k], "email")
        ensures GetAttr(s.items[k], "email") != e
      {
        var i :| 0 <= i < |s.order| && s.order[i] == k;
        ValuesMember(s, i);
      }
    }
  }

  /** For an object whose id is not yet a key, add refuses exactly when some stored
      object already holds its email: the first holder necessarily has another id. */
  lemma {:induction false} AddFreshEmailCheck(s: Store, obj: Obj)
    requires WellFormed(s) && KeysAreIds(s) && Id(obj) !in s.items && HasAttr(obj, "email")
    ensures EmailTaken(s, obj) <==>
              exists k :: k in s.items && Matches(s.items[k], "email", GetAttr(obj, "email"))
  {
    var e := GetAttr(obj, "email");
    FirstMatchCorrect(Values(s), "email", e);
    if FirstMatch(Values(s), "email", e).Some? {
      MatchStored(s, "email", e);
    } else {
      forall k | k in s.items ensures !Matches(s.items[k], "email", e) {
        var i :| 0 <= i < |s.order| && s.order[i] == k;
        ValuesMember(s, i);
      }
    }
  }

  /** A successful add keeps ids as keys and emails unique. */
  lemma {:induction false} AddKeepsInvariants(s: Store, obj: Obj)
    requires WellFormed(s) && KeysAreIds(s) && UniqueEmails(s)
    ensures KeysAreIds(AddSpec(s, obj).1) && UniqueEmails(AddSpec(s, obj).1)
  {
    if HasAttr(obj, "email") {
      AddEmailUniqueness(s, obj);
    }
  }

  /** delete returns true and removes the entry iff the id was present; otherwise the
      store is unchanged. get_all then no longer lists the entry. */
  lemma DeleteEffect(s: Store, id: string)
    requires WellFormed(s)
    ensures DeleteSpec(s, id).0 <==> id in s.items
    ensures DeleteSpec(s, id).1.items == s.items - {id}
    ensures !DeleteSpec(s, id).0 ==> DeleteSpec(s, id).1 == s
    ensures id !in DeleteSpec(s, id).1.order
  {
  }

  /** update on an unknown id returns None and changes nothing; on a known id it sets
      only attributes the object has, and every other entry is untouched. */
  lemma {:induction false} UpdateEffect(s: Store, id: string, data: Payload, k: string)
    requires WellFormed(s)
    ensures id !in s.items ==> UpdateSpec(s, id, data) == (None, s)
    ensures id in s.items ==>
              var t := UpdateSpec(s, id, data).1;
              t.order == s.order && t.items.Keys == s.items.Keys
              && (forall j :: j in s.items && j != id ==> t.items[j] == s.items[j])
              && (HasAttr(s.items[id], k) ==>
                    GetAttr(t.items[id], k) ==
                      if k in data && Fits(k, data[k]) then data[k] else GetAttr(s.items[id], k))
  {
    if id in s.items && HasAttr(s.items[id], k) {
      PatchGetAttr(s.items[id], Restrict(data, Attrs(s.items[id])), k);
    }
  }

  class InMemoryRepository {
    var items: map<string, Obj>
    var order: seq<string>

    function State(): Store
      reads this
    {
      Table(items, order)
    }

    ghost predicate Valid()
      reads this
    {
      WellFormed(State())
    }

    constructor ()
      ensures Valid() && State() == Empty()
    {
      items := map[];
      order := [];
    }

    /** The `_storage[key] = obj` assignment. */
    method Assign(key: string, obj: Obj)
      requires Valid()
      modifies this
      ensures Valid() && State() == Put(old(State()), key, obj)
    {
      if key !in items {
        order := order + [key];
      }
      items := items[key := obj];
    }

    method Get(id: string) returns (r: Option<Obj>)
      ensures r.Some? <==> id in State().items
      ensures r.Some? ==> r.value == State().items[id]
    {
      r := if id in items then Some(items[id]) else None;
    }

    method GetAll() returns (r: seq<Obj>)
      requires Valid()
      ensures r == Values(State())
    {
      r := [];
      var i := 0;
      while i < |order|
        invariant 0 <= i <= |order|
        invariant r == ValuesOf(order[..i], items)
      {
        assert order[..i + 1] == order[..i] + [order[i]];
        ValuesOfAppend(order[..i], [order[i]], items);
        r := r + [items[order[i]]];
        i := i + 1;
      }
      assert order[..i] == order;
    }

    /** get_by_attribute: the first stored object, in insertion order, whose attribute
        equals the value. */
    method GetByAttribute(name: string, value: Value) returns (r: Option<Obj>)
      requires Valid()
      ensures r == FirstMatch(Values(State()), name, value)
    {
      var i := 0;
      ghost var vals := Values(State());
      while i < |order|
        invariant 0 <= i <= |order| == |vals|
        invariant FirstMatch(vals, name, value) == FirstMatch(vals[i..], name, value)
      {
        var o := items[order[i]];
        ValuesMember(State(), i);
        FirstMatchStep(vals, i, name, value);
        if Matches(o, name, value) {
          return Some(o);
        }
        i := i + 1;
      }
      r := None;
    }

    method Add(obj: Obj) returns (r: Outcome)
      requires Valid()
      modifies this
      ensures Valid()
      ensures (r, State()) == AddSpec(old(State()), obj)
    {
      if HasAttr(obj, "email") {
        var existing := GetByAttribute("email", GetAttr(obj, "email"));
        if existing.Some? && Id(existing.value) != Id(obj) {
          return Fail(EmailExists(obj));
        }
      }
      Assign(Id(obj), obj);
      r := Pass;
    }

    method Update(id: string, data: Payload) returns (r: Option<Obj>)
      requires Valid()
      modifies this
      ensures Valid()
      ensures (r, State()) == UpdateSpec(old(State()), id, data)
    {
      r := Get(id);
      if r.Some? {
        var o := SetAttrs(r.value, data, Attrs(r.value));
        assert Attrs(r.value) * Attrs(r.value) == Attrs(r.value);
        Assign(id, o);
        r := Some(o);
      }
    }

    method Delete(id: string) returns (b: bool)
      requires Valid()
      modifies this
      ensures Valid()
      ensures (b, State()) == DeleteSpec(old(State()), id)
    {
      if id in items {
        ghost var before := State();
        items := items - {id};
        order := Filter(order, k => k != id);
        assert State() == DeleteSpec(before, id).1;
        b := true;
      } else {
        b := false;
      }
    }
  }
}
