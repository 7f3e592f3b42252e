/**
 * What the hosted backend hands the stores: the outcome of a call, the dynamically typed
 * values found in table rows, the rows themselves (in the persisted snake_case convention)
 * and the session user. The backend itself is not modelled: every call becomes a `Reply`
 * argument of the operation that issues it.
 */
module Backend {
  import opened Wrappers
  import opened Types

  /**
   * Outcome of one awaited backend call: it resolved with data, it resolved with an
   * `error` member, or the promise rejected. The stores treat the last two differently
   * wherever they ignore a returned error.
   */
  datatype Reply<T> = Ok(data: T) | ErrorReturned(message: string) | Threw(message: string)

  /** A JavaScript value as it may arrive in a column whose type the client does not trust. */
  datatype JsValue =
    | Undefined
    | Null
    | Bool(b: bool)
    | Num(n: real)
    | NaN
    | Str(s: string)
    | Obj(fields: map<string, JsValue>)

  /** JavaScript truthiness. */
  predicate Falsy(v: JsValue) {
    v == Undefined || v == Null || v == Bool(false) || v == Num(0.0) || v == NaN || v == Str("")
  }

  /** `typeof v === 'object'` (true of `null`). */
  predicate TypeofObject(v: JsValue) {
    v.Null? || v.Obj?
  }

  /**
   * The runtime's text parsers, left abstract: `JSON.parse` (None: it throws), `parseFloat`
   * and `parseInt` of a string (None: NaN).
   */
  datatype Parsers = Parsers(
    jsonParse: string -> Option<JsValue>,
    parseFloat: string -> Option<real>,
    parseInt: string -> Option<int>)

  /** A row of the `peaks` table as selected with `*`. */
  datatype PeakRow = PeakRow(
    id: string,
    name: string,
    city: Option<string>,
    province: Option<string>,
    location: JsValue,
    altitude: JsValue,
    difficulty: JsValue,
    description: string,
    imageUrl: Option<string>)

  /** A row of the `checkins` table, in the persisted field names. */
  datatype CheckinRow = CheckinRow(id: string, user_id: string, peak_id: string, checkin_time: Time, location: Coord)

  /** The user part of an authentication session; `name` is `user_metadata.name`. */
  datatype SessionUser = SessionUser(id: string, email: Option<string>, name: Option<string>, createdAt: Time)
}
