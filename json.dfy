/**
 * Decoded JSON values as Python holds them after `json.loads`, with Python's
 * truthiness and `dict.get`.
 */
module JsonValues {
  import opened Opt

  datatype Json =
    | Null
    | Bool(b: bool)
    | Num(n: real)
    | Str(s: string)
    | Arr(items: seq<Json>)
    | Obj(fields: map<string, Json>)

  /** Python's `bool(v)`: `None`, `False`, zero and empty containers are falsy. */
  predicate Truthy(v: Json) {
    match v
    case Null => false
    case Bool(b) => b
    case Num(n) => n != 0.0
    case Str(s) => s != []
    case Arr(items) => items != []
    case Obj(fields) => fields != map[]
  }

  /** `d.get(k)`: the value under `k`, or `None` when `k` is missing. */
  function Get(d: map<string, Json>, k: string): (v: Json)
    ensures k in d ==> v == d[k]
    ensures k !in d ==> !Truthy(v)
  {
    if k in d then d[k] else Null
  }

  /** A Python `str` that may be `None`, as it lands in a JSON object. */
  function FromOptional(o: Option<string>): (v: Json)
    ensures Truthy(v) <==> o.Some? && o.value != []
  {
    match o
    case None => Null
    case Some(s) => Str(s)
  }
}
