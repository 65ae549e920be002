/** The objects of the part3/hbnb/app service. Its models subclass a BaseModel
    (app/models/base_model.py) that is not part of this model; what the models use of
    it is an id, created_at and updated_at set by `super().__init__()`, and a `save()`
    that refreshes updated_at. An object is held as its class name, those three base
    attributes and the map of every other attribute, which is what `setattr`
    changes. */
module AppBase {
  import opened Common

  datatype AppObj = AppObj(cls: string, id: string, createdAt: nat, updatedAt: nat, attrs: map<string, Value>)

  /** The keys Repository.update never sets. */
  const Protected: set<string> := {"id", "created_at", "updated_at"}

  /** `super().__init__()` followed by the subclass's field assignments: one fresh id
      and one clock reading for both timestamps. */
  function Build(cls: string, freshId: string, t: nat, attrs: map<string, Value>): (o: AppObj)
    ensures o.cls == cls && o.id == freshId && o.createdAt == t && o.updatedAt == t && o.attrs == attrs
  {
    AppObj(cls, freshId, t, t, attrs)
  }

  /** `obj.k`, read where the attribute is known to be set. */
  function Attr(o: AppObj, k: string): Value
  {
    if k == "id" then Str(o.id)
    else if k == "created_at" then Int(o.createdAt)
    else if k == "updated_at" then Int(o.updatedAt)
    else Lookup(o.attrs, k)
  }

  /** `save()`: refreshes updated_at. */
  function Save(o: AppObj, now: nat): (r: AppObj)
    ensures r.cls == o.cls && r.id == o.id && r.createdAt == o.createdAt && r.attrs == o.attrs
    ensures r.updatedAt == now
  {
    o.(updatedAt := now)
  }

  /** The kwargs Repository.update sets: every one whose key is not protected. */
  function Settable(kw: map<string, Value>): (r: map<string, Value>)
    ensures r.Keys == kw.Keys - Protected
    ensures forall k :: k in r ==> r[k] == kw[k]
  {
    Restrict(kw, kw.Keys - Protected)
  }

  /** `setattr(obj, key, value)` for each settable kwarg. */
  function Patch(o: AppObj, kw: map<string, Value>): (r: AppObj)
    ensures r.cls == o.cls && r.id == o.id && r.createdAt == o.createdAt && r.updatedAt == o.updatedAt
    ensures r.attrs.Keys == o.attrs.Keys + (kw.Keys - Protected)
    ensures forall k :: k in kw && k !in Protected ==> r.attrs[k] == kw[k]
    ensures forall k :: k in o.attrs && k !in kw ==> r.attrs[k] == o.attrs[k]
  {
    o.(attrs := o.attrs + Settable(kw))
  }

  /** Setting the same kwargs twice leaves the object as setting them once, and
      protected kwargs may be left out without changing anything. */
  lemma PatchIdempotent(o: AppObj, kw: map<string, Value>)
    ensures Patch(Patch(o, kw), kw) == Patch(o, kw)
    ensures Patch(o, Settable(kw)) == Patch(o, kw)
  {
    assert Patch(Patch(o, kw), kw).attrs == Patch(o, kw).attrs;
    assert Settable(Settable(kw)) == Settable(kw);
  }

  /** The update loop, one kwarg at a time. */
  method SetAttrs(o: AppObj, kw: map<string, Value>) returns (r: AppObj)
    ensures r == Patch(o, kw)
  {
    r := o;
    var todo := kw.Keys;
    while todo != {}
      invariant todo <= kw.Keys
      invariant r == o.(attrs := o.attrs + Restrict(kw, (kw.Keys - todo) - Protected))
      decreases todo
    {
      var k :| k in todo;
      if k !in Protected {
        r := r.(attrs := r.attrs[k := kw[k]]);
      }
      todo := todo - {k};
    }
    assert (kw.Keys - {}) - Protected == kw.Keys - Protected;
  }

  /** `x <= y` of Python numbers; comparing anything else raises TypeError. */
  function Number(v: Value): (r: Result<real>)
    ensures r.Ok? <==> AsNumber(v).Some?
    ensures r.Ok? ==> r.value == AsNumber(v).value
  {
    match AsNumber(v)
    case None => Err(TypeError("'<=' not supported between instances"))
    case Some(x) => Ok(x)
  }

  /** `len(v)`: defined on strings, lists and dicts. */
  function PyLen(v: Value): (r: Option<nat>)
    ensures v.Str? ==> r == Some(|v.s|)
    ensures r.Some? <==> v.Str? || v.List? || v.Dict?
  {
    match v
    case Str(s) => Some(|s|)
    case List(items) => Some(|items|)
    case Dict(fields) => Some(|fields|)
    case _ => None
  }
}
