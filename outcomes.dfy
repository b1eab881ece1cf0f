/** Outcomes of the controller operations, without the HTTP envelope.

    Every handler answers either with data (`Ok`) or with one failure: the
    kind (HTTP status 401, 400, 403, 404 or 500) and the stable message the
    handler sends. Request inputs that JavaScript may leave undefined or NaN
    are `Option`s here. */
module Outcomes {

  datatype Option<+T> = None | Some(value: T) {
    function GetOr(default: T): T {
      match this
      case Some(v) => v
      case None => default
    }
  }

  /** The failure kinds the handlers respond with. */
  datatype Error =
    | Unauthorized                    // 401 "No autorizado"
    | BadRequest(message: string)     // 400
    | Forbidden(message: string)      // 403
    | NotFound(message: string)       // 404
    | ServerError(message: string)    // 500, the catch branch

  datatype Result<+T> = Ok(value: T) | Err(error: Error)

  /** The authenticated caller, `req.user?.id`: `!id` rejects both a missing
      identity and the falsy id 0. */
  predicate Authenticated(caller: Option<int>) {
    caller.Some? && caller.value != 0
  }

  /** JavaScript truthiness of an optional number: missing and 0 are falsy. */
  predicate Truthy(x: Option<int>) {
    x.Some? && x.value != 0
  }
}
