/** JSON values as the control plane reads them out of an opaque graph document. */
module Js {

  datatype Option<+T> = None | Some(value: T)

  datatype Value =
    | Null
    | Bool(b: bool)
    | Number(n: real)
    | String(s: string)
    | Array(items: seq<Value>)
    | Object(fields: map<string, Value>)

  /** `typeof v === "object" && v !== null`. */
  predicate ObjectLike(v: Value) {
    v.Object? || v.Array?
  }

  /** Reading a named property of a value that is not null; None stands for undefined. */
  function Property(v: Value, name: string): Option<Value> {
    if v.Object? && name in v.fields then Some(v.fields[name]) else None
  }

  function StringProperty(v: Value, name: string): Option<string> {
    match Property(v, name)
    case Some(String(s)) => Some(s)
    case _ => None
  }

  function ArrayProperty(v: Value, name: string): Option<seq<Value>> {
    match Property(v, name)
    case Some(Array(items)) => Some(items)
    case _ => None
  }
}
