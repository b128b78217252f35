/** Values as `json.load` / `request.json()` decode them, with Python's truthiness and `dict.get`. */
module PyJson {
  import opened Optional

  /** A decoded JSON value: objects are dicts keyed by strings, numbers are exact. */
  datatype Json =
    | Null
    | Bool(b: bool)
    | Num(n: real)
    | Str(s: string)
    | Arr(items: seq<Json>)
    | Obj(fields: map<string, Json>)

  /** `bool(v)`: `None`, `False`, zero and empty containers are false. */
  predicate Truthy(v: Json)
    ensures Truthy(v) <==> v !in [Null, Bool(false), Num(0.0), Str(""), Arr([]), Obj(map[])]
  {
    match v
    case Null => false
    case Bool(b) => b
    case Num(n) => n != 0.0
    case Str(s) => s != ""
    case Arr(a) => a != []
    case Obj(m) => m != map[]
  }

  /**
   * Python's `str(v)` for a decoded value, as an f-string shows it: a string is itself,
   * and any other value is rendered by `show`.
   */
  function StrOf(v: Json, show: Json -> string): (r: string)
    ensures v.Str? ==> r == v.s
  {
    if v.Str? then v.s else show(v)
  }

  /** `d.get(key)`. */
  function Get(d: map<string, Json>, key: string): (r: Option<Json>)
    ensures r.Some? <==> key in d
    ensures r.Some? ==> r.value == d[key]
  {
    if key in d then Some(d[key]) else None
  }

  /** `d.get(key, default)`. */
  function GetOr(d: map<string, Json>, key: string, default: Json): (r: Json)
    ensures key in d ==> r == d[key]
    ensures key !in d ==> r == default
  {
    if key in d then d[key] else default
  }
}
