/** JSON values as the Python code handles them after `json.loads`: objects keep their
    insertion order, a missing key reads as `None`, and Python truthiness decides `or`. */
module Json {
  import opened Wrappers
  import Text

  datatype Json =
    | JNull
    | JBool(b: bool)
    | JInt(i: int)
    | JStr(s: string)
    | JArr(items: seq<Json>)
    | JObj(fields: seq<(string, Json)>)

  /** Field lookup over an object's key/value pairs; the first pair with the key wins. */
  function Lookup(fields: seq<(string, Json)>, key: string): (r: Json)
    ensures r != JNull ==> exists i :: 0 <= i < |fields| && fields[i] == (key, r)
  {
    if fields == [] then JNull
    else if fields[0].0 == key then fields[0].1
    else Lookup(fields[1..], key)
  }

  /** `key in d` for a dict given as its key/value pairs. */
  predicate HasKey(fields: seq<(string, Json)>, key: string) {
    exists i :: 0 <= i < |fields| && fields[i].0 == key
  }

  /** `d.get(key, default)` on a dict: the stored value, even `None`, when the key is
      present, and `default` only when it is absent. */
  function LookupOr(fields: seq<(string, Json)>, key: string, default: Json): (r: Json)
    ensures !HasKey(fields, key) ==> r == default
    ensures HasKey(fields, key) ==> r == Lookup(fields, key) && (key, r) in fields
  {
    if fields == [] then default
    else if fields[0].0 == key then fields[0].1
    else
      assert HasKey(fields, key) ==> HasKey(fields[1..], key) by {
        if HasKey(fields, key) {
          var i :| 0 <= i < |fields| && fields[i].0 == key;
          assert fields[1..][i - 1].0 == key;
        }
      }
      LookupOr(fields[1..], key, default)
  }

  /** The value of a key is the one of its first pair. */
  lemma {:induction false} LookupAt(fields: seq<(string, Json)>, i: nat)
    requires i < |fields|
    requires forall k :: 0 <= k < i ==> fields[k].0 != fields[i].0
    ensures Lookup(fields, fields[i].0) == fields[i].1
  {
    if i > 0 {
      LookupAt(fields[1..], i - 1);
    }
  }

  /** `d.get(key)`: the value stored under `key`, or `None` when `d` is not a dict
      or has no such key. */
  function Get(j: Json, key: string): Json {
    if j.JObj? then Lookup(j.fields, key) else JNull
  }

  /** Python truthiness: `None`, `False`, `0`, `""`, `[]` and `{}` are false. */
  predicate Truthy(j: Json) {
    match j
    case JNull => false
    case JBool(b) => b
    case JInt(i) => i != 0
    case JStr(s) => s != []
    case JArr(items) => items != []
    case JObj(fields) => fields != []
  }

  /** `a or b`. */
  function Or(a: Json, b: Json): (r: Json)
    ensures Truthy(r) <==> Truthy(a) || Truthy(b)
    ensures Truthy(a) ==> r == a
  {
    if Truthy(a) then a else b
  }

  /** Replaces the value of the first pair with the key, or appends a pair. */
  function Store(fields: seq<(string, Json)>, key: string, v: Json): (r: seq<(string, Json)>)
    ensures |r| == |fields| || |r| == |fields| + 1
  {
    if fields == [] then [(key, v)]
    else if fields[0].0 == key then [(key, v)] + fields[1..]
    else [fields[0]] + Store(fields[1..], key, v)
  }

  /** `d[key] = v` on a dict. */
  function Set(j: Json, key: string, v: Json): Json
    requires j.JObj?
  {
    JObj(Store(j.fields, key, v))
  }

  lemma {:induction false} LookupStore(fields: seq<(string, Json)>, key: string, other: string, v: Json)
    ensures Lookup(Store(fields, key, v), key) == v
    ensures other != key ==> Lookup(Store(fields, key, v), other) == Lookup(fields, other)
  {
    if fields != [] && fields[0].0 != key {
      LookupStore(fields[1..], key, other, v);
    }
  }

  /** `d[key] = v` adds `key` to the keys and removes none. */
  lemma {:induction false} HasKeyStore(fields: seq<(string, Json)>, key: string, other: string, v: Json)
    ensures HasKey(Store(fields, key, v), other) <==> other == key || HasKey(fields, other)
  {
    if fields == [] {
      HasKeyCons((key, v), [], other);
    } else if fields[0].0 == key {
      HasKeyCons((key, v), fields[1..], other);
      HasKeyCons(fields[0], fields[1..], other);
      assert [fields[0]] + fields[1..] == fields;
    } else {
      HasKeyStore(fields[1..], key, other, v);
      HasKeyCons(fields[0], Store(fields[1..], key, v), other);
      HasKeyCons(fields[0], fields[1..], other);
      assert [fields[0]] + fields[1..] == fields;
    }
  }

  /** The keys of a field list with one more field in front. */
  lemma HasKeyCons(head: (string, Json), rest: seq<(string, Json)>, key: string)
    ensures HasKey([head] + rest, key) <==> head.0 == key || HasKey(rest, key)
  {
    var r := [head] + rest;
    if HasKey(rest, key) {
      var i :| 0 <= i < |rest| && rest[i].0 == key;
      assert r[i + 1].0 == key;
    }
    if HasKey(r, key) && head.0 != key {
      var i :| 0 <= i < |r| && r[i].0 == key;
      assert rest[i - 1].0 == key;
    }
    if head.0 == key {
      assert r[0].0 == key;
    }
  }

  /** After `d[key] = v`, `d.get(key)` is `v` and every other key reads as before. */
  lemma GetSet(j: Json, key: string, other: string, v: Json)
    requires j.JObj?
    ensures Get(Set(j, key, v), key) == v
    ensures other != key ==> Get(Set(j, key, v), other) == Get(j, other)
  {
    LookupStore(j.fields, key, other, v);
  }

  /** A string value, or `None` for anything else (`x if isinstance(x, str) else None`). */
  function AsString(j: Json): (r: string)
    ensures j.JStr? ==> r == j.s
    ensures !j.JStr? ==> r == []
  {
    if j.JStr? then j.s else []
  }

  /** `x[0]` on a decoded JSON value. */
  function Index0(j: Json): (r: Result<Json, Exc>)
    ensures j.JArr? && j.items != [] ==> r == Success(j.items[0])
    ensures j.JObj? || j.JNull? || j.JBool? || j.JInt? ==> r.Failure?
  {
    match j
    case JArr(items) => if items == [] then Failure(OtherError("IndexError")) else Success(items[0])
    case JStr(s) => if s == [] then Failure(OtherError("IndexError")) else Success(JStr(s[..1]))
    case JObj(_) => Failure(OtherError("KeyError"))
    case _ => Failure(OtherError("TypeError"))
  }

  /** `x.get(key, default)`: only a dict has `.get`. */
  function DictGet(j: Json, key: string, default: Json): (r: Result<Json, Exc>)
    ensures r.Success? <==> j.JObj?
  {
    if j.JObj? then Success(LookupOr(j.fields, key, default)) else Failure(OtherError("AttributeError"))
  }

  /** `str(x)`: scalars as Python prints them; a list or a dict as `repr` renders it. */
  function Str(j: Json, repr: Json -> string): (r: string)
    ensures j.JStr? ==> r == j.s
  {
    match j
    case JNull => "None"
    case JBool(b) => if b then "True" else "False"
    case JInt(i) => Text.IntToDecimal(i)
    case JStr(s) => s
    case _ => repr(j)
  }
}
