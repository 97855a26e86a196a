/** Shapes shared by the backend handlers and the frontend page. */
module Base {

  /** A value that may be missing: `undefined` or `null` in the application. */
  datatype Option<T> = None | Some(value: T) {
    function GetOr(default: T): T {
      if Some? then value else default
    }
  }

  /** The failure replies a handler sends; each stands for one HTTP status. */
  datatype HttpError =
    | BadRequest   // 400
    | NotFound     // 404
    | ServerError  // 500, the catch-all of every handler

  /** What a handler answers: a value, or one of the failure replies. */
  datatype Result<T> = Ok(value: T) | Err(error: HttpError)

  /** Instants; only their order matters to the application. */
  type Date = int

  /** JavaScript truthiness of an optional string: `undefined` and `""` are falsy. */
  predicate Truthy(s: Option<string>) {
    s.Some? && s.value != ""
  }

  /** `a || b` on strings, where `b` is the stored value. */
  function OrElse(a: Option<string>, b: string): string {
    if Truthy(a) then a.value else b
  }
}
