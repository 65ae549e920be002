/** BaseModel of part3/app_old/models/base.py: an id and two timestamps shared by
    every entity of that iteration. Timestamps are readings of the logical clock;
    to_dict renders them as integers where the source writes ISO strings. */
module OldBase {
  import opened Common

  datatype Base = Base(id: string, createdAt: nat, updatedAt: nat)

  /** The keys BaseModel.update refuses to set. */
  const Protected: set<string> := {"id", "created_at", "updated_at"}

  /** BaseModel.__init__: a fresh id, then one clock reading for created_at and a
      second one for updated_at. */
  method NewBase(ids: IdSource, clock: Clock) returns (b: Base)
    requires ids.Valid()
    modifies ids, clock
    ensures ids.Valid()
    ensures b.id !in old(ids.issued) && ids.issued == old(ids.issued) + {b.id}
    ensures old(clock.time) < b.createdAt < b.updatedAt == clock.time
  {
    var id := ids.Fresh();
    var created := clock.Now();
    var updated := clock.Now();
    b := Base(id, created, updated);
  }

  /** BaseModel.save: only updated_at moves, to the given reading. */
  function Save(b: Base, now: nat): (r: Base)
    ensures r.id == b.id && r.createdAt == b.createdAt && r.updatedAt == now
    ensures b.updatedAt < now ==> r.updatedAt > b.updatedAt
  {
    b.(updatedAt := now)
  }

  /** The three keys of BaseModel.to_dict. */
  function BaseDict(b: Base): (d: Payload)
    ensures d.Keys == Protected
  {
    map["id" := Str(b.id), "created_at" := Int(b.createdAt), "updated_at" := Int(b.updatedAt)]
  }

  /** Reads the base attributes back from a dict produced by to_dict. */
  function BaseFromDict(d: Payload): Option<Base>
  {
    if "id" in d && d["id"].Str? && "created_at" in d && d["created_at"].Int? && d["created_at"].i >= 0
       && "updated_at" in d && d["updated_at"].Int? && d["updated_at"].i >= 0
    then Some(Base(d["id"].s, d["created_at"].i, d["updated_at"].i))
    else None
  }

  /** to_dict loses nothing of the base attributes, whatever is added beside them. */
  lemma BaseDictRoundTrip(b: Base, extra: Payload)
    requires extra.Keys !! Protected
    ensures BaseFromDict(BaseDict(b) + extra) == Some(b)
  {
  }
}
