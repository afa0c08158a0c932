/**
 * The dynamically typed values that flow through the prompt templates and
 * the API error bodies: the JSON-shaped subset of Python objects.
 */
module PyValues {

  /** A Python value: `None`, a bool, an int, a str, a list or a dict with str keys. */
  datatype Value =
    | Null
    | Bool(b: bool)
    | Int(i: int)
    | Str(s: string)
    | List(items: seq<Value>)
    | Dict(entries: map<string, Value>)

  /** Python truthiness: `None`, `False`, `0` and empty containers are falsy. */
  predicate Truthy(v: Value)
  {
    match v
    case Null => false
    case Bool(b) => b
    case Int(i) => i != 0
    case Str(s) => s != ""
    case List(items) => items != []
    case Dict(entries) => entries != map[]
  }

  /** `d.get(key)`: the value under `key`, or `None` when the key is missing. */
  function Get(d: map<string, Value>, key: string): (r: Value)
    ensures key !in d ==> r == Null
    ensures key in d ==> r == d[key]
  {
    if key in d then d[key] else Null
  }
}
