/**
 * The CMS REST client: how an error payload becomes an `ApiError`, and how
 * `request` turns the HTTP exchange, or whatever it threw, into
 * `{ data, error }`.
 */
module ServerApi {
  import opened Wrappers
  import JsLib

  /**
   * A response body as the client looks at it: a string, an object with
   * optional `message`, `error` and `data` fields (`T` is the type of a
   * successful `data`), `null`, or any other value that is not `undefined`
   * (a parsed response body is never `undefined`).
   */
  datatype Payload<T> =
    | PStr(s: string)
    | PObj(message: Option<string>, error: Option<string>, data: Option<T>)
    | PNull
    | POther

  /** What the `catch` clause can receive. */
  datatype Thrown = ThrownError(message: string) | ThrownString(s: string) | ThrownOther

  /** The `raw` field: the payload, or the thrown value. */
  datatype Raw<T> = RawPayload(payload: Payload<T>) | RawThrown(thrown: Thrown)

  datatype ApiError<T> = ApiError(status: int, message: string, raw: Raw<T>)

  /** `{ data, error }`; `None` stands for `null` and `undefined` alike. */
  datatype ApiResponse<T> = ApiResponse(data: Option<T>, error: Option<ApiError<T>>)

  const HtmlPrefix: string := "<!DOCTYPE html"
  const UnexpectedResponse: string := "Unexpected server response"
  const UnknownError: string := "Unknown error"
  const RequestFailed: string := "Network or request failed"

  /** `a || b` on strings: the empty string is falsy. */
  function Or(a: string, b: string): (r: string)
    ensures a != "" ==> r == a
    ensures a == "" ==> r == b
  {
    if a != "" then a else b
  }

  /** The texts a payload carries itself. */
  function PayloadTexts<T>(payload: Payload<T>): set<string> {
    match payload
    case PStr(s) => {s}
    case PObj(m, e, _) =>
      (if m.Some? then {m.value} else {}) + (if e.Some? then {e.value} else {})
    case _ => {}
  }

  /**
   * `normalizeError(status, payload, fallback)`: the status and the payload
   * are kept; the message is the payload's own text, the fallback or a fixed
   * text, and it is empty only for an empty string payload.
   */
  function NormalizeError<T>(status: int, payload: Payload<T>, fallback: string): (e: ApiError<T>)
    ensures e.status == status && e.raw == RawPayload(payload)
    ensures e.message == "" <==> payload == PStr("")
    ensures e.message in PayloadTexts(payload) + {fallback, UnexpectedResponse, UnknownError}
  {
    match payload
    case PStr(s) =>
      if JsLib.StartsWith(s, HtmlPrefix) then
        ApiError(status, Or(fallback, UnexpectedResponse), RawPayload(payload))
      else
        ApiError(status, s, RawPayload(payload))
    case PObj(message, error, _) =>
      ApiError(status, Or(message.GetOr(error.GetOr(fallback)), UnknownError), RawPayload(payload))
    case _ =>
      ApiError(status, Or(fallback, UnknownError), RawPayload(payload))
  }

  /**
   * The message, case by case: an HTML page gives the fallback (or a fixed
   * text); any other string is the message; an object gives its first
   * present field among `message`, `error` and the fallback, where a present
   * but empty `message` is not passed over for `error` and ends as
   * "Unknown error"; anything else gives the fallback or "Unknown error".
   */
  lemma NormalizeErrorMessage<T>(status: int, payload: Payload<T>, fallback: string)
    ensures payload.PStr? && JsLib.StartsWith(payload.s, HtmlPrefix) ==>
      NormalizeError(status, payload, fallback).message ==
        (if fallback != "" then fallback else UnexpectedResponse)
    ensures payload.PStr? && !JsLib.StartsWith(payload.s, HtmlPrefix) ==>
      NormalizeError(status, payload, fallback).message == payload.s
    ensures payload.PObj? && payload.message.Some? ==>
      NormalizeError(status, payload, fallback).message ==
        (if payload.message.value != "" then payload.message.value else UnknownError)
    ensures payload.PObj? && payload.message.None? && payload.error.Some? ==>
      NormalizeError(status, payload, fallback).message ==
        (if payload.error.value != "" then payload.error.value else UnknownError)
    ensures (payload.PNull? || payload.POther? || (payload.PObj? && payload.message.None? && payload.error.None?)) ==>
      NormalizeError(status, payload, fallback).message ==
        (if fallback != "" then fallback else UnknownError)
  {
  }

  /**
   * How the awaited `client.request` ended: with a response, or by throwing.
   * A response only arrives below status 500; the client rejects the rest,
   * so they end as `Threw`.
   */
  datatype Outcome<T> =
    | Responded(status: int, statusText: string, body: Payload<T>)
    | Threw(thrown: Thrown)

  /** The `catch` clause: status 0 and a message taken from what was thrown. */
  function Caught<T>(err: Thrown): (r: ApiResponse<T>)
    ensures r.data.None? && r.error.Some?
    ensures r.error.value.status == 0 && r.error.value.raw == RawThrown(err)
    ensures err.ThrownError? ==> r.error.value.message == err.message
    ensures err.ThrownString? ==> r.error.value.message == err.s
    ensures err.ThrownOther? ==> r.error.value.message == RequestFailed
  {
    var message :=
      if err.ThrownError? then err.message
      else if err.ThrownString? then err.s
      else RequestFailed;
    ApiResponse(None, Some(ApiError(0, message, RawThrown(err))))
  }

  /**
   * `request`, after the network exchange. A status of 400 or more gives no
   * data and the normalised error; a lower status gives the body's `data`
   * and no error. Reading `data` off a `null` body throws inside the `try`,
   * so that case, like any thrown value, ends in the `catch` clause;
   * `nullRead` is the message of the `TypeError` the engine raises there.
   */
  function Request<T>(outcome: Outcome<T>, nullRead: string): (r: ApiResponse<T>)
    requires outcome.Responded? ==> outcome.status < 500
    ensures r.error.Some? ==> r.data.None?
    ensures r.error.Some? <==>
      outcome.Threw? || outcome.status >= 400 || outcome.body.PNull?
    ensures outcome.Responded? && outcome.status >= 400 ==>
      r.error == Some(NormalizeError(outcome.status, outcome.body, outcome.statusText))
    ensures outcome.Responded? && outcome.status < 400 && outcome.body.PObj? ==>
      r == ApiResponse(outcome.body.data, None)
    ensures outcome.Responded? && outcome.status < 400 && !outcome.body.PObj? && !outcome.body.PNull? ==>
      r == ApiResponse(None, None)
    ensures outcome.Threw? ==> r == Caught(outcome.thrown)
    ensures outcome.Responded? && outcome.status < 400 && outcome.body.PNull? ==>
      r == Caught(ThrownError(nullRead))
  {
    match outcome
    case Threw(err) => Caught(err)
    case Responded(status, statusText, body) =>
      if status >= 400 then
        ApiResponse(None, Some(NormalizeError(status, body, statusText)))
      else
        match body
        case PNull => Caught(ThrownError(nullRead))
        case PObj(_, _, data) => ApiResponse(data, None)
        case _ => ApiResponse(None, None)
  }

  /**
   * An error carries status 0 exactly when the request threw (or read a
   * `null` body); an error answered by the server keeps its HTTP status.
   */
  lemma ErrorStatus<T>(outcome: Outcome<T>, nullRead: string)
    requires outcome.Responded? ==> outcome.status != 0 && outcome.status < 500
    ensures var r := Request(outcome, nullRead);
      r.error.Some? ==>
        (r.error.value.status == 0 <==> outcome.Threw? || (outcome.body.PNull? && outcome.status < 400))
  {
  }
}
