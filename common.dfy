/** Values shared by every module: optional values, results with an error, and the
    part of a Ruby value the serializer and the proxy look at. */
module Common {

  datatype Option<+T> = None | Some(value: T) {
    /** `x || default` in Ruby, for an option that is nil when absent. */
    function GetOr(default: T): T {
      match this
      case Some(v) => v
      case None => default
    }
  }

  /** A computation that either produces a value or raises an error. */
  datatype Result<+T, +E> = Ok(value: T) | Err(error: E)

  /** A Ruby value, as far as the serializer and the proxy inspect it. */
  datatype Value =
    | Nil
    | Bool(b: bool)
    | Int(i: int)
    | Str(s: string)
    | Obj(ref: nat)             // an opaque domain object, known by identity only
    | List(items: seq<Value>)   // an Array or other enumerable

  /** Ruby truthiness: everything except `nil` and `false`. */
  predicate Truthy(v: Value) {
    v != Nil && v != Bool(false)
  }
}
