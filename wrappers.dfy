/** Option and Result values standing for the TypeScript `T | null`, optional fields and thrown errors. */
module Wrappers {

  datatype Option<+T> = None | Some(value: T) {
    function GetOr(default: T): T {
      match this
      case Some(v) => v
      case None => default
    }
  }

  /** `Ok` is a normal return; `Err` carries the message of the error the source throws. */
  datatype Result<+T> = Ok(value: T) | Err(error: string)

  /** JavaScript truthiness of a `string | null` value: null and "" are falsy. */
  predicate Truthy(s: Option<string>) {
    s.Some? && s.value != ""
  }

  function Min(a: int, b: int): int { if a <= b then a else b }

  function Max(a: int, b: int): int { if a >= b then a else b }
}
