/** Decoded JSON values under the Python operations the stream parsers use on
    them. An operation that raises on a value has no result. */
module PyJson {
  import opened Wrappers

  /** Numbers are taken without rounding; JSON null is Python's None. */
  datatype Json =
    | Null
    | Bool(b: bool)
    | Num(n: real)
    | Str(s: string)
    | Arr(items: seq<Json>)
    | Obj(fields: map<string, Json>)

  /** `v.get(key)`, AttributeError unless v is a dict. */
  function Get(v: Json, key: string): Option<Json> { GetOr(v, key, Null) }

  /** `v.get(key, default)`. */
  function GetOr(v: Json, key: string, default: Json): Option<Json> {
    if v.Obj? then Some(if key in v.fields then v.fields[key] else default) else None
  }

  predicate Truthy(v: Json) {
    match v
    case Null => false
    case Bool(b) => b
    case Num(n) => n != 0.0
    case Str(s) => s != ""
    case Arr(items) => items != []
    case Obj(fields) => fields != map[]
  }

  /** `a or b`. */
  function Or(a: Json, b: Json): Json { if Truthy(a) then a else b }

  /** The numeric value of a number or a bool. */
  function AsNumber(v: Json): Option<real> {
    match v
    case Num(n) => Some(n)
    case Bool(b) => Some(if b then 1.0 else 0.0)
    case _ => None
  }

  /** `a + b`: numbers add, texts and lists concatenate, anything else raises. */
  function Add(a: Json, b: Json): Option<Json> {
    if AsNumber(a).Some? && AsNumber(b).Some? then Some(Num(AsNumber(a).value + AsNumber(b).value))
    else if a.Str? && b.Str? then Some(Str(a.s + b.s))
    else if a.Arr? && b.Arr? then Some(Arr(a.items + b.items))
    else None
  }

  const EMPTY: Json := Obj(map[])
}
