// JSON values as the plan tooling sees them: a recursive datatype with finite maps,
// and the lookups of `serde_json::Value` the algorithms are written with.

module Wrappers {
  datatype Option<+T> = None | Some(value: T)

  datatype Result<+T, +E> = Ok(value: T) | Err(error: E)
}

module Json {
  import opened Wrappers

  datatype Json =
    | Null
    | Bool(b: bool)
    | Number(n: int)
    | String(s: string)
    | Array(items: seq<Json>)
    | Object(fields: map<string, Json>)

  const TRUE_MARKER := Some(Bool(true))

  predicate IsObject(v: Option<Json>) { v.Some? && v.value.Object? }

  predicate IsArray(v: Option<Json>) { v.Some? && v.value.Array? }

  // `v.get(k)`: only an object has a member under a string key.
  function Member(v: Option<Json>, k: string): Option<Json> {
    if IsObject(v) && k in v.value.fields then Some(v.value.fields[k]) else None
  }

  // Following a path of keys.
  function Lookup(v: Option<Json>, path: seq<string>): Option<Json>
    decreases |path|
  {
    if path == [] then v else Lookup(Member(v, path[0]), path[1..])
  }

  lemma {:induction false} NothingInNone(path: seq<string>)
    ensures Lookup(None, path) == None
  {
    if path != [] {
      NothingInNone(path[1..]);
    }
  }

  // `v.get(i)`: only an array has a member under an index.
  function Element(v: Option<Json>, i: nat): Option<Json> {
    if IsArray(v) && i < |v.value.items| then Some(v.value.items[i]) else None
  }

  function Keys(v: Option<Json>): set<string> {
    if IsObject(v) then v.value.fields.Keys else {}
  }

  function Length(v: Option<Json>): nat {
    if IsArray(v) then |v.value.items| else 0
  }

  // Stands in for an absent value in termination measures.
  function OrNull(v: Option<Json>): Json {
    if v.Some? then v.value else Null
  }

  // Two finite maps that answer every lookup alike are the same map.
  lemma EqualByLookup<K, V>(m: map<K, V>, n: map<K, V>)
    requires forall k :: k in m <==> k in n
    requires forall k :: k in m && k in n ==> m[k] == n[k]
    ensures m == n
  {
    assert m.Keys == n.Keys;
  }

  lemma EqualByMember(x: Option<Json>, y: Option<Json>)
    requires IsObject(x) && IsObject(y)
    requires forall k: string :: Member(x, k) == Member(y, k)
    ensures x == y
  {
    var m, n := x.value.fields, y.value.fields;
    forall k: string
      ensures k in m <==> k in n
      ensures k in m && k in n ==> m[k] == n[k]
    {
      assert Member(x, k) == Member(y, k);
    }
    EqualByLookup(m, n);
  }
}
