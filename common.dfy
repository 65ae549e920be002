/** Shared vocabulary of the model: optional values, results that carry the
    exceptions the services raise, the dynamic values found in request
    payloads and in the dictionaries the entities return, and the stand-ins
    for the wall clock, the uuid generator and bcrypt. */
module Common {

  datatype Option<T> = None | Some(value: T)

  /** The exceptions raised by the core. NotFound and BadRequest are the HTTP
      errors of part3/hbnb/errors.py; the others are Python's built-in ones. */
  datatype Error =
    | NotFound
    | BadRequest(message: string)
    | ValueError(message: string)
    | KeyError(message: string)
    | TypeError(message: string)
    | NameError(message: string)
    | AttributeError(message: string)

  datatype Result<T> = Ok(value: T) | Err(error: Error)

  /** The outcome of a validate() method: it returns None or raises. */
  datatype Outcome = Pass | Fail(error: Error)

  /** A Python value as it appears in a JSON-like dict. */
  datatype Value =
    | Null
    | Bool(b: bool)
    | Int(i: int)
    | Num(r: real)
    | Str(s: string)
    | List(items: seq<Value>)
    | Dict(fields: map<string, Value>)

  /** A request payload or keyword-argument dict. */
  type Payload = map<string, Value>

  /** Python truthiness, as used by `if not x`. */
  predicate Truthy(v: Value)
  {
    match v
    case Null => false
    case Bool(b) => b
    case Int(i) => i != 0
    case Num(r) => r != 0.0
    case Str(s) => s != ""
    case List(items) => items != []
    case Dict(fields) => fields != map[]
  }

  /** dict.get(key): the value, or None when the key is absent. */
  function Lookup(p: Payload, key: string): Value
  {
    if key in p then p[key] else Null
  }

  /** dict.get(key, default). */
  function LookupOr(p: Payload, key: string, default: Value): Value
  {
    if key in p then p[key] else default
  }

  /** A number as Python's int or float; anything else is not a number. */
  function AsNumber(v: Value): Option<real>
  {
    match v
    case Int(i) => Some(i as real)
    case Num(r) => Some(r)
    case _ => None
  }

  /** The dict restricted to the given keys. */
  function Restrict(m: Payload, keys: set<string>): (r: Payload)
    ensures r.Keys == m.Keys * keys
    ensures forall k :: k in r ==> r[k] == m[k]
  {
    map k | k in m && k in keys :: m[k]
  }

  /** An optional string as a Python value: None or the string. */
  function OptStr(r: Option<string>): Value
  {
    match r
    case None => Null
    case Some(id) => Str(id)
  }

  /** The optional string a Python value stands for, if it is None or a string. */
  function AsOptStr(v: Value): (r: Option<Option<string>>)
    ensures r.Some? ==> OptStr(r.value) == v
  {
    match v
    case Null => Some(None)
    case Str(s) => Some(Some(s))
    case _ => None
  }

  /** A list whose every item is a string, as the list of those strings. */
  function AsStrings(v: Value): (r: Option<seq<string>>)
    ensures r.Some? ==> v == StrList(r.value)
  {
    if v.List? && forall k :: 0 <= k < |v.items| ==> v.items[k].Str?
    then
      var ids := seq(|v.items|, k requires 0 <= k < |v.items| => v.items[k].s);
      assert v.items == seq(|ids|, k requires 0 <= k < |ids| => Str(ids[k]));
      Some(ids)
    else None
  }

  /** A list of ids as the Python list of those strings. */
  function StrList(ids: seq<string>): (v: Value)
    ensures v.List? && |v.items| == |ids|
    ensures forall k :: 0 <= k < |ids| ==> v.items[k] == Str(ids[k])
  {
    List(seq(|ids|, k requires 0 <= k < |ids| => Str(ids[k])))
  }

  /** StrList and AsStrings are inverse to each other. */
  lemma StrListRoundTrip(ids: seq<string>)
    ensures AsStrings(StrList(ids)) == Some(ids)
  {
    var r := StrList(ids);
    assert seq(|r.items|, k requires 0 <= k < |r.items| => r.items[k].s) == ids;
  }

  /** A list with no repeated element. */
  predicate NoDup<T(==)>(s: seq<T>)
  {
    forall i, j :: 0 <= i < j < |s| ==> s[i] != s[j]
  }

  /** str(v) for the values an error message interpolates; other values are not rendered. */
  function PyStr(v: Value): string
  {
    match v
    case Str(s) => s
    case Null => "None"
    case Bool(b) => if b then "True" else "False"
    case Int(i) => if i < 0 then "-" + Show(-i) else Show(i)
    case _ => "<value>"
  }

  /** A list comprehension `[x for x in s if keep(x)]`. */
  function Filter<T(!new)>(s: seq<T>, keep: T -> bool): (r: seq<T>)
    ensures |r| <= |s|
    ensures forall x :: x in r <==> x in s && keep(x)
  {
    if s == [] then []
    else (if keep(s[0]) then [s[0]] else []) + Filter(s[1..], keep)
  }

  /** Filtering keeps the relative order: it distributes over concatenation. */
  lemma {:induction false} FilterAppend<T(!new)>(a: seq<T>, b: seq<T>, keep: T -> bool)
    ensures Filter(a + b, keep) == Filter(a, keep) + Filter(b, keep)
  {
    if a == [] {
      assert a + b == b;
    } else {
      assert (a + b)[1..] == a[1..] + b;
      FilterAppend(a[1..], b, keep);
    }
  }

  /** Every element of a filtered sequence satisfies the filter, position by position. */
  lemma {:induction false} FilterAll<T(!new)>(s: seq<T>, keep: T -> bool)
    ensures forall k :: 0 <= k < |Filter(s, keep)| ==> keep(Filter(s, keep)[k])
  {
    if s != [] {
      FilterAll(s[1..], keep);
    }
  }

  lemma {:induction false} FilterAllPass<T(!new)>(s: seq<T>, keep: T -> bool)
    requires forall k :: 0 <= k < |s| ==> keep(s[k])
    ensures Filter(s, keep) == s
  {
    if s != [] {
      FilterAllPass(s[1..], keep);
    }
  }

  // ----- iteration and hashing of payload values -----

  const Unhashable := "unhashable type"
  const NotIterable := "object is not iterable"

  /** A list or dict cannot be a dict key, so `d.get(v)` raises TypeError on it. */
  predicate IsUnhashable(v: Value)
  {
    v.List? || v.Dict?
  }

  /** The one-character strings of a string, which `for c in s` yields. */
  function Chars(s: string): (r: seq<Value>)
    ensures |r| == |s| && forall i :: 0 <= i < |s| ==> r[i] == Str([s[i]])
  {
    seq(|s|, i requires 0 <= i < |s| => Str([s[i]]))
  }

  /** Lexicographic order on strings. */
  predicate Below(a: string, b: string)
  {
    if a == [] then b != []
    else if b == [] then false
    else a[0] < b[0] || (a[0] == b[0] && Below(a[1..], b[1..]))
  }

  lemma {:induction false} BelowAsymmetric(a: string, b: string)
    ensures !(Below(a, b) && Below(b, a))
  {
    if a != [] && b != [] && a[0] == b[0] {
      BelowAsymmetric(a[1..], b[1..]);
    }
  }

  lemma {:induction false} BelowTransitive(a: string, b: string, c: string)
    requires Below(a, b) && Below(b, c)
    ensures Below(a, c)
  {
    if a != [] && a[0] == b[0] && b[0] == c[0] {
      BelowTransitive(a[1..], b[1..], c[1..]);
    }
  }

  lemma {:induction false} BelowTotal(a: string, b: string)
    ensures a == b || Below(a, b) || Below(b, a)
  {
    if a != [] && b != [] && a[0] == b[0] {
      BelowTotal(a[1..], b[1..]);
      if a[1..] == b[1..] {
        assert a == [a[0]] + a[1..] && b == [b[0]] + b[1..];
      }
    }
  }

  /** The element of s below every other one. */
  predicate Least(s: set<string>, m: string)
  {
    m in s && forall y :: y in s && y != m ==> Below(m, y)
  }

  /** Every non-empty set of strings has exactly one least element. */
  lemma {:induction false} LeastExists(s: set<string>)
    requires s != {}
    ensures exists m :: Least(s, m)
    ensures forall a, b :: Least(s, a) && Least(s, b) ==> a == b
    decreases |s|
  {
    var x :| x in s;
    if s == {x} {
      assert Least(s, x);
    } else {
      LeastExists(s - {x});
      var m :| Least(s - {x}, m);
      BelowTotal(x, m);
      if Below(x, m) {
        forall y | y in s && y != x
          ensures Below(x, y)
        {
          if y != m {
            BelowTransitive(x, m, y);
          }
        }
        assert Least(s, x);
      } else {
        assert Least(s, m);
      }
    }
    forall a, b | Least(s, a) && Least(s, b)
      ensures a == b
    {
      if a != b {
        BelowAsymmetric(a, b);
      }
    }
  }

  /** The keys of a dict in lexicographic order. */
  function SortedKeys(s: set<string>): (r: seq<string>)
    ensures |r| == |s| && forall k :: k in r <==> k in s
    decreases |s|
  {
    if s == {} then []
    else
      LeastExists(s);
      var m :| Least(s, m);
      [m] + SortedKeys(s - {m})
  }

  /** `for x in v`: a list gives its items, a string its characters and a dict its keys
      (here in lexicographic order, since a Value does not record insertion order);
      anything else is not iterable. */
  function Iterate(v: Value): (r: Result<seq<Value>>)
    ensures v.List? ==> r == Ok(v.items)
    ensures v.Str? ==> r == Ok(Chars(v.s))
    ensures v.Dict? ==> r.Ok? && |r.value| == |v.fields|
                        && forall x :: x in r.value <==> x.Str? && x.s in v.fields
    ensures r.Ok? <==> v.List? || v.Str? || v.Dict?
    ensures r.Err? ==> r.error == TypeError(NotIterable)
  {
    match v
    case List(items) => Ok(items)
    case Str(s) => Ok(Chars(s))
    case Dict(fields) =>
      var keys := SortedKeys(fields.Keys);
      var r := seq(|keys|, i requires 0 <= i < |keys| => Str(keys[i]));
      assert forall x :: x in r ==> x.Str? && x.s in fields;
      assert forall k :: k in fields ==> Str(k) in r by {
        forall k | k in fields
          ensures Str(k) in r
        {
          var i :| 0 <= i < |keys| && keys[i] == k;
          assert r[i] == Str(k);
        }
      }
      Ok(r)
    case _ => Err(TypeError(NotIterable))
  }

  // ----- fresh identifiers (stand-in for str(uuid.uuid4())) -----

  function Digit(d: nat): char
    requires d < 10
  {
    (48 + d) as char
  }

  /** The decimal numeral of n. */
  function Show(n: nat): (s: string)
    ensures |s| >= 1
    ensures n >= 10 ==> |s| >= 2
  {
    if n < 10 then [Digit(n)] else Show(n / 10) + [Digit(n % 10)]
  }

  /** Distinct counters give distinct identifiers. */
  lemma {:induction false} ShowInjective(a: nat, b: nat)
    requires a != b
    ensures Show(a) != Show(b)
  {
    if a < 10 && b < 10 {
      assert Show(a)[0] != Show(b)[0];
    } else if a < 10 {
      assert |Show(a)| == 1;
    } else if b < 10 {
      assert |Show(b)| == 1;
    } else if a % 10 != b % 10 {
      var sa, sb := Show(a), Show(b);
      assert sa[|sa| - 1] == Digit(a % 10);
      assert sb[|sb| - 1] == Digit(b % 10);
    } else {
      ShowInjective(a / 10, b / 10);
      var sa, sb := Show(a), Show(b);
      assert sa[..|sa| - 1] == Show(a / 10);
      assert sb[..|sb| - 1] == Show(b / 10);
    }
  }

  /** Source of fresh ids: a counter whose numerals are never handed out twice. */
  class IdSource {
    var next: nat
    ghost var issued: set<string>

    ghost predicate Valid()
      reads this
    {
      forall id :: id in issued ==> exists k: nat :: k < next && id == Show(k)
    }

    constructor ()
      ensures Valid() && issued == {}
    {
      next := 0;
      issued := {};
    }

    method Fresh() returns (id: string)
      requires Valid()
      modifies this
      ensures Valid()
      ensures id !in old(issued) && issued == old(issued) + {id}
      ensures id == Show(old(next)) && next == old(next) + 1
    {
      id := Show(next);
      forall k: nat | k < next
        ensures Show(k) != id
      {
        ShowInjective(k, next);
      }
      issued := issued + {id};
      next := next + 1;
    }
  }

  /** Logical stand-in for datetime.now(): every reading is later than the last. */
  class Clock {
    var time: nat

    constructor ()
      ensures time == 0
    {
      time := 0;
    }

    method Now() returns (t: nat)
      modifies this
      ensures t == old(time) + 1 && time == t
    {
      time := time + 1;
      t := time;
    }
  }

  // ----- password hashing (stand-in for bcrypt) -----

  /** Stand-in for generate_password_hash: any injective tagging will do. */
  function Hash(password: string): string
  {
    "bcrypt$" + password
  }

  /** Stand-in for check_password_hash. */
  predicate CheckHash(hash: string, password: string)
  {
    hash == Hash(password)
  }

  /** A hash accepts the password it was made from and no other. */
  lemma HashChecks(p: string, q: string)
    ensures CheckHash(Hash(p), q) <==> p == q
  {
    if Hash(p) == Hash(q) {
      assert p == Hash(p)[7..] == Hash(q)[7..] == q;
    }
  }
}
