/** Nullable values, results and outcomes shared by every module of the model. */
module Wrappers {

  /** A value that may be absent: JavaScript's `null` and `undefined` both become `None`. */
  datatype Option<+T> = None | Some(value: T) {

    /** `x ?? fallback` */
    function GetOr(fallback: T): T {
      match this
      case Some(v) => v
      case None => fallback
    }

    /** `x ?? y` where `y` may itself be absent */
    function OrElse(other: Option<T>): Option<T> {
      if Some? then this else other
    }
  }

  /** A value, or the message of the `Error` the source throws. */
  datatype Result<+T> = Ok(value: T) | Err(message: string)

  /** Success of an operation that returns nothing, or the message of the `Error` it throws. */
  datatype Outcome = Pass | Fail(message: string)

  /** A truthy optional string: present and non-empty (`!value` rejects `null`, `undefined` and `""`). */
  predicate IsSet(value: Option<string>) {
    value.Some? && value.value != ""
  }
}
