/** JSON-like values as the parser sees them after `json.load`, together with the
    few pieces of Python's dynamic semantics the change-extraction engine relies on:
    `dict.get` with a default, truthiness, the `in` operator, hashability of a
    dictionary key and iteration in a `for` loop. Each Python exception the engine
    can raise on an ill-shaped document is an `Err` value instead. */
module PyJson {

  /** A JSON value. Numbers are integers and equality is structural: lists compare
      element-wise in order, objects compare by key set and value per key. */
  datatype Json =
    | JNull
    | JBool(b: bool)
    | JInt(i: int)
    | JStr(s: string)
    | JArr(items: seq<Json>)
    | JObj(fields: map<string, Json>)

  /** The exception kinds the engine can raise on a malformed document. */
  datatype PyError = AttributeError | TypeError | KeyError

  datatype Option<+T> = None | Some(value: T)

  /** The outcome of a Python call: its value, or the exception it raised. */
  datatype Result<+T> = Ok(value: T) | Err(error: PyError)

  /** `d.get(k)`: the value under `k`, or `None` (JSON null) when `k` is missing. */
  function Get(d: map<string, Json>, k: string): Json {
    if k in d then d[k] else JNull
  }

  /** `d.get(k, default)`. */
  function GetOr(d: map<string, Json>, k: string, default: Json): Json {
    if k in d then d[k] else default
  }

  /** Python truthiness: null, false, 0, "", [] and {} are false. */
  predicate Truthy(v: Json) {
    match v
    case JNull => false
    case JBool(b) => b
    case JInt(i) => i != 0
    case JStr(s) => s != ""
    case JArr(xs) => xs != []
    case JObj(m) => m != map[]
  }

  /** `needle` occurs as a contiguous part of `hay` (Python's `needle in hay` on str). */
  predicate Occurs(needle: string, hay: string) {
    exists i :: 0 <= i <= |hay| && needle <= hay[i..]
  }

  /** Python's `needle in container` for a string `needle`: element equality on a
      list, substring on a string, key membership on a dict; null, booleans and
      numbers are not containers and raise TypeError. */
  function In(needle: string, container: Json): (r: Result<bool>)
    ensures r.Err? <==> (container.JNull? || container.JBool? || container.JInt?)
    ensures container.JArr? ==> (r == Ok(true) <==> JStr(needle) in container.items)
    ensures container.JObj? ==> (r == Ok(true) <==> needle in container.fields)
  {
    match container
    case JArr(xs) => Ok(JStr(needle) in xs)
    case JStr(s) => Ok(Occurs(needle, s))
    case JObj(m) => Ok(needle in m)
    case _ => Err(TypeError)
  }

  /** A value Python accepts as a dictionary key: lists and dicts are unhashable. */
  predicate Hashable(v: Json) {
    !v.JArr? && !v.JObj?
  }

  /** What `for resource in v: resource.get(...)` walks over. A list yields its
      items. An empty string or dict yields nothing. A non-empty string or dict
      yields strings, on which the first `.get` raises AttributeError, so the
      whole walk is that error. Null, booleans and numbers are not iterable. */
  function Iterate(v: Json): (r: Result<seq<Json>>)
    ensures v.JArr? ==> r == Ok(v.items)
    ensures r.Ok? ==> v.JArr? || v == JStr("") || v == JObj(map[])
    ensures r.Err? && (v.JStr? || v.JObj?) ==> r.error == AttributeError
  {
    match v
    case JArr(xs) => Ok(xs)
    case JStr(s) => if s == "" then Ok([]) else Err(AttributeError)
    case JObj(m) => if m == map[] then Ok([]) else Err(AttributeError)
    case _ => Err(TypeError)
  }
}
