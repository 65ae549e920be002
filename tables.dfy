/** An insertion-ordered dictionary from ids to entities: what a Python dict keyed by id
    is, with the key order that `dict.values()` exposes kept beside the map. */
module Tables {
  import opened Common

  datatype Table<T> = Table(items: map<string, T>, order: seq<string>)

  /** Every key of the map appears in the order exactly once. */
  ghost predicate WellFormed<T>(t: Table<T>)
  {
    (forall k :: k in t.items <==> k in t.order) && NoDup(t.order)
  }

  function Empty<T>(): (t: Table<T>)
    ensures WellFormed(t) && t.items == map[]
  {
    Table(map[], [])
  }

  /** The values in key order (`list(d.values())`). */
  function ValuesOf<T>(order: seq<string>, items: map<string, T>): (r: seq<T>)
    requires forall k :: k in order ==> k in items
    ensures |r| == |order|
    ensures forall i :: 0 <= i < |order| ==> r[i] == items[order[i]]
  {
    if order == [] then [] else [items[order[0]]] + ValuesOf(order[1..], items)
  }

  function Values<T>(t: Table<T>): seq<T>
    requires WellFormed(t)
  {
    ValuesOf(t.order, t.items)
  }

  /** Every stored value is listed, and only those. */
  lemma {:induction false} ValuesExact<T>(t: Table<T>, x: T)
    requires WellFormed(t)
    ensures x in Values(t) <==> exists k :: k in t.items && t.items[k] == x
  {
    if x in Values(t) {
      var i :| 0 <= i < |Values(t)| && Values(t)[i] == x;
      assert t.order[i] in t.items;
    }
    if exists k :: k in t.items && t.items[k] == x {
      var k :| k in t.items && t.items[k] == x;
      var i :| 0 <= i < |t.order| && t.order[i] == k;
      assert Values(t)[i] == x;
    }
  }

  /** `d[key] = v`: a new key goes to the end, an existing key keeps its place. */
  function Put<T>(t: Table<T>, key: string, v: T): (r: Table<T>)
    requires WellFormed(t)
    ensures WellFormed(r)
    ensures r.items == t.items[key := v]
    ensures r.order == if key in t.items then t.order else t.order + [key]
  {
    if key in t.items then Table(t.items[key := v], t.order)
    else
      var r := Table(t.items[key := v], t.order + [key]);
      assert forall i :: 0 <= i < |t.order| ==> r.order[i] == t.order[i];
      r
  }

  /** The keys other than the given one. */
  function Except(key: string): string -> bool
  {
    k => k != key
  }

  /** `del d[key]` for a present key, and no change otherwise: the other keys keep
      their relative order. */
  function Remove<T>(t: Table<T>, key: string): (r: Table<T>)
    requires WellFormed(t)
    ensures WellFormed(r)
    ensures r.items == t.items - {key}
    ensures r.order == Filter(t.order, Except(key))
    ensures key !in t.items ==> r == t
  {
    if key !in t.items then
      FilterAllPass(t.order, Except(key));
      t
    else
      var r := Table(t.items - {key}, Filter(t.order, Except(key)));
      FilterKeepsNoDup(t.order, Except(key));
      r
  }

  lemma NoDupTail(s: seq<string>)
    requires NoDup(s) && s != []
    ensures NoDup(s[1..]) && s[0] !in s[1..]
  {
    var t := s[1..];
    forall i | 0 <= i < |t|
      ensures t[i] != s[0]
    {
      assert t[i] == s[i + 1];
    }
    forall i, j | 0 <= i < j < |t|
      ensures t[i] != t[j]
    {
      assert t[i] == s[i + 1] && t[j] == s[j + 1];
    }
  }

  lemma NoDupCons(x: string, t: seq<string>)
    requires NoDup(t) && x !in t
    ensures NoDup([x] + t)
  {
    var r := [x] + t;
    forall i, j | 0 <= i < j < |r|
      ensures r[i] != r[j]
    {
      assert r[j] == t[j - 1];
      if i > 0 {
        assert r[i] == t[i - 1];
      }
    }
  }

  lemma {:induction false} FilterKeepsNoDup(s: seq<string>, keep: string -> bool)
    requires NoDup(s)
    ensures NoDup(Filter(s, keep))
  {
    if s != [] {
      NoDupTail(s);
      FilterKeepsNoDup(s[1..], keep);
      if keep(s[0]) {
        NoDupCons(s[0], Filter(s[1..], keep));
      }
    }
  }

  lemma {:induction false} ValuesOfAppend<T>(a: seq<string>, b: seq<string>, items: map<string, T>)
    requires forall k :: k in a + b ==> k in items
    ensures ValuesOf(a + b, items) == ValuesOf(a, items) + ValuesOf(b, items)
  {
    if a != [] {
      assert (a + b)[1..] == a[1..] + b;
      ValuesOfAppend(a[1..], b, items);
    } else {
      assert a + b == b;
    }
  }

  /** Putting a new key appends its value to the listing; an existing key's value is
      replaced where it stands. */
  lemma PutValues<T>(t: Table<T>, key: string, v: T)
    requires WellFormed(t)
    ensures key !in t.items ==> Values(Put(t, key, v)) == Values(t) + [v]
    ensures key in t.items ==> |Values(Put(t, key, v))| == |Values(t)|
    ensures key in t.items ==> forall i :: 0 <= i < |t.order| ==>
              Values(Put(t, key, v))[i] == if t.order[i] == key then v else Values(t)[i]
  {
    if key !in t.items {
      ValuesOfAppend(t.order, [key], t.items[key := v]);
      assert ValuesOf(t.order, t.items[key := v]) == ValuesOf(t.order, t.items);
    }
  }
}
