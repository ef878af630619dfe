/**
 * Values shared by the two routers: optional body fields, JavaScript
 * truthiness of such a field, HTTP status codes, and what a handler returns.
 */
module Http {

  /** A JSON body field or a document path that may be `undefined`. */
  datatype Option<+T> = None | Some(value: T)

  /**
   * JavaScript truthiness of a string that may be `undefined`:
   * `undefined` and the empty string are falsy, every other string is truthy.
   */
  predicate Truthy(s: Option<string>)
  {
    s.Some? && s.value != ""
  }

  /** The status codes the handlers send: 200, 201, 400, 401, 404 and 500. */
  datatype Status = Ok | Created | BadRequest | Unauthorized | NotFound | ServerError

  /** A handler's reply: a status with the JSON body it selects, or a status with `{ error }`. */
  datatype Response<+B> = Success(status: Status, body: B) | Failure(status: Status, error: string)

  /** What a state-changing handler does: its reply and the collection afterwards. */
  datatype Outcome<+B, +S> = Outcome(response: Response<B>, state: S)

  const UserNotFound := "User not found"
}
