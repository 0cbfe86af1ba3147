/**
 * Decoded JSON values as the scripts see them after `json.loads`, with the
 * few pieces of Python semantics the scripts apply to them: truthiness
 * (`if not x`), `dict.get(key, default)`, subscripting with `[0]`, the `in`
 * operator with a string on the left, and iteration with `for`.
 */
module JsonValue {
  import opened Base
  import opened Text

  /** A JSON value. An object keeps its members in document order, as Python
      dicts do; numbers are integers. */
  datatype Json =
    | JNull
    | JBool(b: bool)
    | JNumber(n: int)
    | JString(s: string)
    | JArray(items: seq<Json>)
    | JObject(members: seq<(string, Json)>)

  /** `bool(v)` in Python. */
  predicate Truthy(v: Json) {
    match v
    case JNull => false
    case JBool(b) => b
    case JNumber(n) => n != 0
    case JString(s) => s != []
    case JArray(a) => a != []
    case JObject(m) => m != []
  }

  /** The value stored under `key` in a member list. `json.load` keeps the
      last of several members with the same key, so the last one counts. */
  function Lookup(members: seq<(string, Json)>, key: string): (r: Option<Json>)
    ensures r.None? <==> forall i :: 0 <= i < |members| ==> members[i].0 != key
    ensures r.Some? ==> exists i :: 0 <= i < |members| && members[i] == (key, r.value)
  {
    if members == [] then None
    else if members[|members| - 1].0 == key then Some(members[|members| - 1].1)
    else Lookup(members[..|members| - 1], key)
  }

  /** The last member carrying `key` decides the lookup. */
  lemma {:induction false} LookupLast(members: seq<(string, Json)>, key: string, i: nat)
    requires i < |members| && members[i].0 == key
    requires forall j :: i < j < |members| ==> members[j].0 != key
    ensures Lookup(members, key) == Some(members[i].1)
  {
    if i < |members| - 1 {
      LookupLast(members[..|members| - 1], key, i);
    }
  }

  /** `v.get(key, default)`: `None` when `v` is not a dict (an AttributeError). */
  function Get(v: Json, key: string, default: Json): (r: Option<Json>)
    ensures r.Some? <==> v.JObject?
  {
    match v
    case JObject(m) => Some(match Lookup(m, key) case Some(x) => x case None => default)
    case _ => None
  }

  /** The values a Python `for` loop visits: list items, dict keys, or the
      one-character strings of a string; `None` for a value that is not
      iterable (a TypeError). */
  function Iterate(v: Json): (r: Option<seq<Json>>)
    ensures v.JArray? ==> r == Some(v.items)
    ensures r.Some? <==> (v.JArray? || v.JObject? || v.JString?)
  {
    match v
    case JArray(a) => Some(a)
    case JObject(m) => Some(seq(|m|, i requires 0 <= i < |m| => JString(m[i].0)))
    case JString(s) => Some(seq(|s|, i requires 0 <= i < |s| => JString([s[i]])))
    case _ => None
  }

  /** `needle in v` for a string `needle`: key membership for a dict, element
      equality for a list, substring for a string; `None` for any other value
      (a TypeError). */
  function In(needle: string, v: Json): (r: Option<bool>)
    ensures r.Some? <==> (v.JArray? || v.JObject? || v.JString?)
    ensures v.JObject? ==> r == Some(Lookup(v.members, needle).Some?)
  {
    match v
    case JObject(m) => Some(Lookup(m, needle).Some?)
    case JArray(a) => Some(JString(needle) in a)
    case JString(s) => Some(Contains(s, needle))
    case _ => None
  }

  /** `v[0]` on a truthy value: the first list item or first character; `None`
      for a dict (a KeyError, since JSON keys are strings) and for numbers and
      booleans (a TypeError). */
  function First(v: Json): (r: Option<Json>)
    requires Truthy(v)
    ensures v.JArray? ==> r == Some(v.items[0])
    ensures r.Some? <==> (v.JArray? || v.JString?)
  {
    match v
    case JArray(a) => Some(a[0])
    case JString(s) => Some(JString([s[0]]))
    case _ => None
  }
}
