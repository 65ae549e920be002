/** MemoryRepository of part3/hbnb/persistence/memory_repo.py: one insertion-ordered
    dict per class name, each keyed by object id. A bucket that `setdefault` has not
    created yet behaves as an empty one, so the model creates buckets only on writes. */
module MemoryRepo {
  import opened Common
  import opened Tables
  import opened HbnbObjects

  type Db = map<string, Table<HObj>>

  /** `self._bucket(cls)`, read only. */
  function Bucket(db: Db, cls: string): (t: Table<HObj>)
    ensures cls !in db ==> t.items == map[] && t.order == []
  {
    if cls in db then db[cls] else Empty()
  }

  /** A bucket holds objects of its own class under their own ids. */
  ghost predicate BucketSound(t: Table<HObj>, cls: string)
  {
    WellFormed(t) && forall k :: k in t.items ==> ClassName(t.items[k]) == cls && Id(t.items[k]) == k
  }

  ghost predicate Sound(db: Db)
  {
    forall c :: c in db ==> BucketSound(db[c], c)
  }

  lemma SoundBucket(db: Db, cls: string)
    requires Sound(db)
    ensures BucketSound(Bucket(db, cls), cls)
  {
  }

  /** add(obj): stored in the bucket of its class under its id, overwriting. */
  function AddSpec(db: Db, o: HObj): (r: Db)
    requires Sound(db)
    ensures Sound(r)
  {
    SoundBucket(db, ClassName(o));
    db[ClassName(o) := Put(Bucket(db, ClassName(o)), Id(o), o)]
  }

  /** get(cls, id). */
  function GetSpec(db: Db, cls: string, id: string): (r: Option<HObj>)
    ensures r.Some? <==> id in Bucket(db, cls).items
    ensures r.Some? ==> r.value == Bucket(db, cls).items[id]
  {
    if id in Bucket(db, cls).items then Some(Bucket(db, cls).items[id]) else None
  }

  /** list(cls): the bucket's values in insertion order. */
  function ListSpec(db: Db, cls: string): seq<HObj>
    requires Sound(db)
  {
    SoundBucket(db, cls);
    Values(Bucket(db, cls))
  }

  /** list(cls, predicate): the values the predicate keeps, in bucket order; no
      predicate keeps them all. */
  function ListWhereSpec(db: Db, cls: string, pred: Option<HObj -> bool>): seq<HObj>
    requires Sound(db)
  {
    if pred.None? then ListSpec(db, cls) else Filter(ListSpec(db, cls), pred.value)
  }

  function NotFoundMessage(o: HObj): string
  {
    ClassName(o) + "(" + Id(o) + ") not found"
  }

  /** update(obj): KeyError unless the id is already in the bucket; otherwise the entry
      is replaced. */
  function UpdateSpec(db: Db, o: HObj): (r: (Result<HObj>, Db))
    requires Sound(db)
    ensures Sound(r.1)
  {
    if Id(o) !in Bucket(db, ClassName(o)).items then (Err(KeyError(NotFoundMessage(o))), db)
    else (Ok(o), AddSpec(db, o))
  }

  /** delete(cls, id): removes the entry when present. */
  function DeleteSpec(db: Db, cls: string, id: string): (r: Db)
    requires Sound(db)
    ensures Sound(r)
  {
    SoundBucket(db, cls);
    if id in Bucket(db, cls).items then db[cls := Remove(Bucket(db, cls), id)] else db
  }

  class MemoryRepository {
    var db: Db

    ghost predicate Valid()
      reads this
    {
      Sound(db)
    }

    constructor ()
      ensures Valid() && db == map[]
    {
      db := map[];
    }

    method Add(obj: HObj) returns (r: HObj)
      requires Valid()
      modifies this
      ensures Valid()
      ensures r == obj && db == AddSpec(old(db), obj)
    {
      var cls := ClassName(obj);
      var bucket := if cls in db then db[cls] else Empty();
      SoundBucket(db, cls);
      db := db[cls := Put(bucket, Id(obj), obj)];
      r := obj;
    }

    method Get(cls: string, id: string) returns (r: Option<HObj>)
      ensures r == GetSpec(db, cls, id)
    {
      var bucket := if cls in db then db[cls] else Empty();
      r := if id in bucket.items then Some(bucket.items[id]) else None;
    }

    method List(cls: string, pred: Option<HObj -> bool>) returns (r: seq<HObj>)
      requires Valid()
      ensures r == ListWhereSpec(db, cls, pred)
    {
      var bucket := if cls in db then db[cls] else Empty();
      SoundBucket(db, cls);
      var values := Values(bucket);
      r := if pred.Some? then Filter(values, pred.value) else values;
    }

    method Update(obj: HObj) returns (r: Result<HObj>)
      requires Valid()
      modifies this
      ensures Valid()
      ensures (r, db) == UpdateSpec(old(db), obj)
    {
      var cls := ClassName(obj);
      var bucket := if cls in db then db[cls] else Empty();
      if Id(obj) !in bucket.items {
        return Err(KeyError(NotFoundMessage(obj)));
      }
      SoundBucket(db, cls);
      db := db[cls := Put(bucket, Id(obj), obj)];
      r := Ok(obj);
    }

    method Delete(cls: string, id: string)
      requires Valid()
      modifies this
      ensures Valid()
      ensures db == DeleteSpec(old(db), cls, id)
    {
      var bucket := if cls in db then db[cls] else Empty();
      SoundBucket(db, cls);
      if id in bucket.items {
        db := db[cls := Remove(bucket, id)];
      }
    }
  }

  // ----- what the repository promises -----

  /** After add(obj), get(type(obj), obj.id) returns obj and list(type(obj)) holds it. */
  lemma AddThenGet(db: Db, o: HObj)
    requires Sound(db)
    ensures GetSpec(AddSpec(db, o), ClassName(o), Id(o)) == Some(o)
    ensures o in ListSpec(AddSpec(db, o), ClassName(o))
  {
    var r := AddSpec(db, o);
    SoundBucket(r, ClassName(o));
    ValuesExact(Bucket(r, ClassName(o)), o);
  }

  /** Buckets are isolated: an add touches no other class's bucket, and nothing stored
      under one class name is of another class. */
  lemma {:induction false} BucketsIsolated(db: Db, o: HObj, cls: string, id: string, x: HObj)
    requires Sound(db)
    ensures cls != ClassName(o) ==> Bucket(AddSpec(db, o), cls) == Bucket(db, cls)
    ensures cls != ClassName(o) ==> GetSpec(AddSpec(db, o), cls, id) == GetSpec(db, cls, id)
    ensures GetSpec(db, cls, id) == Some(x) ==> ClassName(x) == cls && Id(x) == id
    ensures x in ListSpec(db, cls) ==> ClassName(x) == cls
  {
    SoundBucket(db, cls);
    ValuesExact(Bucket(db, cls), x);
  }

  /** add performs no uniqueness check: an existing entry with the same id is replaced
      where it stands, and the bucket keeps its size. */
  lemma {:induction false} AddOverwrites(db: Db, o: HObj)
    requires Sound(db) && Id(o) in Bucket(db, ClassName(o)).items
    ensures Bucket(AddSpec(db, o), ClassName(o)).order == Bucket(db, ClassName(o)).order
    ensures |ListSpec(AddSpec(db, o), ClassName(o))| == |ListSpec(db, ClassName(o))|
    ensures GetSpec(AddSpec(db, o), ClassName(o), Id(o)) == Some(o)
  {
    SoundBucket(db, ClassName(o));
    PutValues(Bucket(db, ClassName(o)), Id(o), o);
  }

  /** A new id goes to the end of its class's listing. */
  lemma {:induction false} AddAppends(db: Db, o: HObj)
    requires Sound(db) && Id(o) !in Bucket(db, ClassName(o)).items
    ensures ListSpec(AddSpec(db, o), ClassName(o)) == ListSpec(db, ClassName(o)) + [o]
  {
    SoundBucket(db, ClassName(o));
    PutValues(Bucket(db, ClassName(o)), Id(o), o);
  }

  /** update of an id not in the bucket raises KeyError and changes nothing; of a
      present id it replaces that entry alone. */
  lemma {:induction false} UpdateEffect(db: Db, o: HObj, cls: string, id: string)
    requires Sound(db)
    ensures Id(o) !in Bucket(db, ClassName(o)).items ==>
              UpdateSpec(db, o) == (Err(KeyError(ClassName(o) + "(" + Id(o) + ") not found")), db)
    ensures Id(o) in Bucket(db, ClassName(o)).items ==>
              && UpdateSpec(db, o).0 == Ok(o)
              && GetSpec(UpdateSpec(db, o).1, ClassName(o), Id(o)) == Some(o)
              && Bucket(UpdateSpec(db, o).1, ClassName(o)).order == Bucket(db, ClassName(o)).order
              && ((cls, id) != (ClassName(o), Id(o)) ==>
                    GetSpec(UpdateSpec(db, o).1, cls, id) == GetSpec(db, cls, id))
  {
    SoundBucket(db, ClassName(o));
  }

  /** delete removes the entry if present, is a silent no-op otherwise, and leaves every
      other entry alone. */
  lemma {:induction false} DeleteEffect(db: Db, cls: string, id: string, c: string, k: string)
    requires Sound(db)
    ensures GetSpec(DeleteSpec(db, cls, id), cls, id) == None
    ensures id !in Bucket(db, cls).items ==> DeleteSpec(db, cls, id) == db
    ensures (c, k) != (cls, id) ==> GetSpec(DeleteSpec(db, cls, id), c, k) == GetSpec(db, c, k)
  {
    SoundBucket(db, cls);
  }

  /** list(cls, predicate) returns exactly the bucket values the predicate keeps, in
      bucket order; list(cls) returns every stored object of the class. */
  lemma {:induction false} ListWhereExact(db: Db, cls: string, keep: HObj -> bool, x: HObj)
    requires Sound(db)
    ensures x in ListWhereSpec(db, cls, Some(keep)) <==> x in ListSpec(db, cls) && keep(x)
    ensures forall i :: 0 <= i < |ListWhereSpec(db, cls, Some(keep))| ==> keep(ListWhereSpec(db, cls, Some(keep))[i])
    ensures (forall y :: y in ListSpec(db, cls) ==> keep(y)) ==> ListWhereSpec(db, cls, Some(keep)) == ListSpec(db, cls)
    ensures x in ListSpec(db, cls) <==> exists k :: k in Bucket(db, cls).items && Bucket(db, cls).items[k] == x
  {
    FilterAll(ListSpec(db, cls), keep);
    if forall y :: y in ListSpec(db, cls) ==> keep(y) {
      FilterAllPass(ListSpec(db, cls), keep);
    }
    SoundBucket(db, cls);
    ValuesExact(Bucket(db, cls), x);
  }
}
