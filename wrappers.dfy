/** Failure-carrying results shared by the handlers. */
module Wrappers {

  datatype Option<+T> = None | Some(value: T) {
    /** `d.get(key, default)` on an optional value */
    function GetOr(default: T): T
    {
      match this
      case Some(v) => v
      case None => default
    }
  }

  /** What a handler produces: a value, or the HTTP status and detail of the
      `HTTPException` it raises. */
  datatype Result<+T> = Ok(value: T) | Err(status: nat, detail: string)

  function Min(a: int, b: int): int
  {
    if a <= b then a else b
  }
}
