/** Optional values: `None` stands for a JavaScript `undefined` or `null`. */
module Wrappers {

  datatype Option<+T> = None | Some(value: T) {

    /** `v ?? default`: the value when present, otherwise the default. */
    function GetOr(default: T): T {
      match this
      case Some(v) => v
      case None => default
    }
  }

  /**
   * A string field that JavaScript treats as true (`!v` is false) and that
   * mongoose's `required` validator accepts: defined and not empty.
   */
  predicate Truthy(v: Option<string>)
  {
    v.Some? && v.value != ""
  }
}

/** The replies the HTTP handlers send: a JSON body, or an error status with `{ error: message }`. */
module Http {

  datatype Reply<+T> = Json(body: T) | Fail(status: nat, error: string)

  /** What a middleware decides: continue with a value, or answer with an error. */
  datatype Gate<+T> = Pass(value: T) | Deny(status: nat, error: string)

  /** A handler's reply together with the collection it leaves behind. */
  datatype Outcome<+T, +D> = Outcome(reply: Reply<T>, docs: seq<D>)

  const BadRequest: nat := 400
  const Unauthorized: nat := 401
  const Forbidden: nat := 403
  const NotFound: nat := 404
  const ServerError: nat := 500
}
