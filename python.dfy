/** The slice of Python's data model that the resolver touches: decoded JSON
    values, `dict.get`, truthiness, and the exceptions that escape the resolver. */
module Python {

  /** Python's `None` or a value. */
  datatype Option<+T> = None | Some(value: T)

  /** A value produced by decoding JSON. `Null` is Python's `None`; numbers are
      carried as opaque reals and never computed with. */
  datatype Value =
    | Null
    | Bool(b: bool)
    | Number(n: real)
    | Str(s: string)
    | Array(items: seq<Value>)
    | Object(fields: map<string, Value>)

  /** A decoded JSON object, i.e. a Python `dict` with string keys. */
  type Dict = map<string, Value>

  /** `d.get(key, default)` */
  function Get(d: Dict, key: string, default: Value): Value
  {
    if key in d then d[key] else default
  }

  /** `bool(v)` for a decoded JSON value. */
  predicate Truthy(v: Value)
  {
    match v
    case Null => false
    case Bool(b) => b
    case Number(n) => n != 0.0
    case Str(s) => s != ""
    case Array(items) => items != []
    case Object(fields) => fields != map[]
  }

  /** `bool(x)` for an optional string, such as a discovered address. */
  predicate SomeText(x: Option<string>)
  {
    x.Some? && x.value != ""
  }

  /** `bool(x)` for an optional dict, such as a lookup result. */
  predicate SomeEntries(x: Option<Dict>)
  {
    x.Some? && x.value != map[]
  }

  /** The exceptions that can escape the resolution engine. */
  datatype PyException =
    | AttributeError  // a method called on a value of the wrong type
    | IndexError      // `[0]` on an empty list

  /** How a Python call ends: it returns a value or raises. */
  datatype Completion<+T> = Normal(value: T) | Raised(exc: PyException)
}
