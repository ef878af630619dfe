/**
 * The Request document (models/request.js): five paths, three of them
 * required, `requestID` and `createdAt` filled by defaults.
 */
module RequestModel {
  import opened Http

  /** A stored ride request; `createdAt` is a time in milliseconds since the epoch. */
  datatype Request = Request(
    requestID: string,
    userId: string,
    location: string,
    time: string,
    createdAt: int)

  /** The fields a caller passes to `new Request({ userId, location, time })`. */
  datatype RequestForm = RequestForm(userId: Option<string>, location: Option<string>, time: Option<string>)

  /** A stored request carries every required path. */
  predicate WellFormed(q: Request)
  {
    q.userId != "" && q.location != "" && q.time != ""
  }

  /**
   * Build and validate a new document: `requestID` defaults to the fresh
   * identifier `id` and `createdAt` to the clock `now`. Mongoose's `required`
   * check on a String path fails for `undefined` and for "", that is, exactly
   * when the value is falsy; then nothing is built.
   */
  function Build(form: RequestForm, id: string, now: int): (r: Option<Request>)
    ensures r.Some? <==> Truthy(form.userId) && Truthy(form.location) && Truthy(form.time)
    ensures r.Some? ==> WellFormed(r.value)
    ensures r.Some? ==> r.value.requestID == id && r.value.createdAt == now
    ensures r.Some? ==> form == RequestForm(Some(r.value.userId), Some(r.value.location), Some(r.value.time))
  {
    if Truthy(form.userId) && Truthy(form.location) && Truthy(form.time) then
      Some(Request(id, form.userId.value, form.location.value, form.time.value, now))
    else
      None
  }
}
