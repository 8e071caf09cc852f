/**
  Decoded JSON values, as `response.json()` hands them to the formatter, and
  the Python operations the formatter applies to them: subscripting with a
  key or an index, `dict.get` with a default, and the `in` operator.
*/
module Json {
  import opened Wrappers
  import opened Text

  datatype Json =
    | JNull
    | JBool(b: bool)
    | JNum(n: real)
    | JStr(s: string)
    | JArr(items: seq<Json>)
    | JObj(fields: map<string, Json>)

  /** A subscript: a dictionary key or a list/string position. */
  datatype Key = Field(name: string) | Position(index: nat)

  /** What a subscript or `.get` call does: yields a value, raises KeyError, or raises anything else. */
  datatype Access = Found(value: Json) | KeyError(key: Key) | OtherError

  /**
    `v[k]`. Only a dictionary raises KeyError, and it names the key that was
    asked for; a list or string out of range raises IndexError, and a
    subscript of the wrong type raises TypeError (both OtherError).
  */
  function Subscript(v: Json, k: Key): (r: Access)
    ensures r.KeyError? <==> v.JObj? && !(k.Field? && k.name in v.fields)
    ensures r.KeyError? ==> r.key == k
    ensures r.Found? && v.JObj? ==> k.Field? && r.value == v.fields[k.name]
  {
    match v
    case JObj(m) =>
      if k.Field? && k.name in m then Found(m[k.name]) else KeyError(k)
    case JArr(a) =>
      if k.Position? && k.index < |a| then Found(a[k.index]) else OtherError
    case JStr(s) =>
      if k.Position? && k.index < |s| then Found(JStr([s[k.index]])) else OtherError
    case _ => OtherError
  }

  /** `v.get(name, default)`: only a dictionary has `get`; anything else raises AttributeError. */
  function Get(v: Json, name: string, default: Json): Access
  {
    match v
    case JObj(m) => Found(if name in m then m[name] else default)
    case _ => OtherError
  }

  /**
    `needle in v`: key membership for a dictionary, element membership for a
    list, substring for a string; None where Python raises TypeError.
  */
  function Contains(v: Json, needle: string): Option<bool>
  {
    match v
    case JObj(m) => Some(needle in m)
    case JArr(a) => Some(JStr(needle) in a)
    case JStr(s) => Some(IsSubstring(needle, s))
    case _ => None
  }

  /**
    `v[k0][k1]...`: subscripts applied left to right, stopping at the first
    one that raises. A KeyError always names one of the keys of the path.
  */
  function Follow(v: Json, path: seq<Key>): (r: Access)
    ensures r.KeyError? ==> r.key in path
    decreases path
  {
    if path == [] then Found(v)
    else
      match Subscript(v, path[0])
      case Found(w) => Follow(w, path[1..])
      case failure => failure
  }
}
