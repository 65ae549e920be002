/** BaseModel of part3/hbnb/bl/base.py: a dataclass with an id (a fresh uuid string by
    default) and two timestamps (the current time by default). The entity classes of
    part3/hbnb/bl are built with `Cls(**payload)` and changed with `setattr`, so every
    attribute but the id holds whatever payload value was given; the timestamps are
    values too, since a payload may set them. A timestamp the model produces is the
    logical time as an Int in place of an ISO string. */
module HbnbBase {
  import opened Common

  datatype HBase = HBase(id: string, createdAt: Value, updatedAt: Value)

  const BaseFields: set<string> := {"id", "created_at", "updated_at"}

  /** now_iso() at logical time t. */
  function Stamp(t: nat): Value
  {
    Int(t)
  }

  const UnexpectedKeyword := "__init__() got an unexpected keyword argument"
  const IdNotString := "id must be a string"
  const NotComparable := "'<' not supported between these operand types"

  /** The keyword arguments of a constructor whose own parameters are `own`: any other
      key than those and the base fields is refused by Python. */
  predicate Unexpected(kw: Payload, own: set<string>)
  {
    !(kw.Keys <= own + BaseFields)
  }

  /** The dataclass __init__ of BaseModel: each field from the keyword arguments, or its
      default (the fresh id, the two clock readings). */
  function BaseFrom(kw: Payload, freshId: string, t1: nat, t2: nat): (r: Result<HBase>)
    ensures r.Err? <==> "id" in kw && !kw["id"].Str?
    ensures r.Ok? ==> r.value.id == (if "id" in kw then kw["id"].s else freshId)
    ensures r.Ok? ==> r.value.createdAt == LookupOr(kw, "created_at", Stamp(t1))
                      && r.value.updatedAt == LookupOr(kw, "updated_at", Stamp(t2))
  {
    if "id" in kw && !kw["id"].Str? then Err(TypeError(IdNotString))
    else
      var id := if "id" in kw then kw["id"].s else freshId;
      Ok(HBase(id, LookupOr(kw, "created_at", Stamp(t1)), LookupOr(kw, "updated_at", Stamp(t2))))
  }

  /** With no keyword arguments every field takes its default, and the two timestamps
      are readings of the clock in order. */
  lemma DefaultBase(freshId: string, t1: nat, t2: nat)
    requires t1 < t2
    ensures BaseFrom(map[], freshId, t1, t2) == Ok(HBase(freshId, Stamp(t1), Stamp(t2)))
  {
  }

  /** touch(): only updated_at changes, to the current time. */
  function Touch(b: HBase, now: nat): (r: HBase)
    ensures r.id == b.id && r.createdAt == b.createdAt && r.updatedAt == Stamp(now)
  {
    b.(updatedAt := Stamp(now))
  }

  /** The base fields as asdict() renders them. */
  function BaseDict(b: HBase): (d: Payload)
    ensures d.Keys == BaseFields
    ensures d["id"] == Str(b.id) && d["created_at"] == b.createdAt && d["updated_at"] == b.updatedAt
  {
    map["id" := Str(b.id), "created_at" := b.createdAt, "updated_at" := b.updatedAt]
  }

  /** The base fields of a dict are keyword arguments that rebuild the same base. */
  lemma BaseDictRoundTrip(b: HBase, extra: Payload, freshId: string, t1: nat, t2: nat)
    requires extra.Keys !! BaseFields
    ensures BaseFrom(BaseDict(b) + extra, freshId, t1, t2) == Ok(b)
  {
    var kw := BaseDict(b) + extra;
    assert kw["id"] == Str(b.id) && kw["created_at"] == b.createdAt && kw["updated_at"] == b.updatedAt;
  }

  /** `x < 0` style comparisons with a number: TypeError unless x is an int or a float. */
  function Number(v: Value): (r: Result<real>)
    ensures r.Ok? <==> AsNumber(v).Some?
    ensures r.Ok? ==> r.value == AsNumber(v).value
  {
    match AsNumber(v)
    case None => Err(TypeError(NotComparable))
    case Some(x) => Ok(x)
  }
}
