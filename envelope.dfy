/**
 * The two response envelopes of the API and what a handler ends with.
 *
 * `ApiResponse` (utils/apiResponse.js) wraps every reply body; `ApiError`
 * (utils/apiError.js) is what handlers throw.  The application's error
 * middleware (app.js) answers an `ApiError` whose statusCode is a number with
 * that status and the error's fields, and any other thrown error (a failed
 * cast, a validation error, a `TypeError` on a missing document) with a fresh
 * `ApiError(500, err.message, err)`.  An `ApiError` whose statusCode is text
 * (`ThrowText`) makes `res.status` itself throw inside the middleware, so
 * Express answers it with its own 500 page; `Outcome` keeps the error that
 * the handler threw.
 */
module Envelope {
  import opened Wrappers

  /** The JSON literals handlers send instead of a document: `null` and `{}`. */
  datatype Blank = Null | EmptyObject

  /** A reply body's `data`: a document of the handler's kind, or a blank literal. */
  datatype Json<T> = Doc(value: T) | Blank(blank: Blank)

  datatype ApiResponse<T> = ApiResponse(statusCode: int, data: T, message: string, success: bool)

  /** `new ApiResponse(statusCode, data, message)`; `None` is an omitted message. */
  function NewApiResponse<T>(statusCode: int, data: T, message: Option<string>): (r: ApiResponse<T>)
    ensures r.statusCode == statusCode && r.data == data
    ensures r.success <==> statusCode < 400
    ensures message.None? ==> r.message == "Success"
    ensures message.Some? ==> r.message == message.value
  {
    ApiResponse(statusCode, data, message.GetOr("Success"), statusCode < 400)
  }

  /**
   * The `statusCode` an `ApiError` was built with.  Two call sites pass a
   * message where the status belongs (`new ApiError("Failed to …", error)`),
   * so the field can hold text.
   */
  datatype Status = Code(code: int) | Text(text: string)

  /**
   * `errors`: the list given to the constructor when it has elements, else the
   * built-in `Error` constructor itself, which is what `errors.length > 0 ?
   * errors : Error` yields for an empty list or for a value without a length
   * (the caught error objects some call sites pass).  One call site passes a
   * non-empty string, which is kept as it is (`Named`).
   */
  datatype Errors = Listed(items: seq<string>) | Named(text: string) | ErrorClass

  datatype ApiError = ApiError(statusCode: Status, data: Blank, message: string, success: bool, errors: Errors)

  /** `new ApiError(statusCode, message, errors)`; `None` is an omitted message. */
  function NewApiError(statusCode: Status, message: Option<string>, errors: seq<string>): (e: ApiError)
    ensures e.statusCode == statusCode
    ensures e.data == Null
    ensures !e.success
    ensures message.None? ==> e.message == "Something went wrong"
    ensures message.Some? ==> e.message == message.value
    ensures |errors| > 0 ==> e.errors == Listed(errors)
    ensures |errors| == 0 ==> e.errors == ErrorClass
  {
    ApiError(statusCode, Null, message.GetOr("Something went wrong"), false,
             if |errors| > 0 then Listed(errors) else ErrorClass)
  }

  /**
   * How a handler ends: `res.status(http).json(body)`, or an error that reaches
   * the error middleware.
   */
  datatype Outcome<T> = Replied(http: int, body: ApiResponse<Json<T>>) | Failed(error: ApiError)
  {
    predicate IsError(code: int) {
      Failed? && error.statusCode == Code(code)
    }
  }

  /** `res.status(http).json(new ApiResponse(code, data, message))`. */
  function Reply<T>(http: int, code: int, data: Json<T>, message: string): (o: Outcome<T>)
    ensures o.Replied? && o.http == http && o.body.statusCode == code
    ensures o.body.data == data && o.body.message == message
    ensures o.body.success <==> code < 400
  {
    Replied(http, NewApiResponse(code, data, Some(message)))
  }

  /** The error `new ApiError(code, message)` builds. */
  function Raised(code: int, message: string): (e: ApiError)
    ensures e.statusCode == Code(code) && e.message == message
    ensures !e.success && e.data == Null && e.errors == ErrorClass
  {
    NewApiError(Code(code), Some(message), [])
  }

  /** `throw new ApiError(code, message, path)` with a non-empty string `path` in the errors position. */
  function ThrowNamed<T>(code: int, message: string, path: string): (o: Outcome<T>)
    requires path != ""
    ensures o.IsError(code) && o.error.message == message && o.error.errors == Named(path)
  {
    Failed(ApiError(Code(code), Null, message, false, Named(path)))
  }

  /** `throw new ApiError(code, message)`. */
  function Throw<T>(code: int, message: string): (o: Outcome<T>)
    ensures o.IsError(code) && o.error.message == message && !o.error.success
  {
    Failed(Raised(code, message))
  }

  /**
   * What a `findOwnerOf…` helper gives its handler: the document found and its
   * position in its collection, or the error it throws.
   */
  datatype Lookup<D> = Found(index: nat, doc: D) | Stop(error: ApiError)

  /**
   * A thrown error that is not an `ApiError` (a failed cast, a schema
   * validation failure, a property read on `null`): the error middleware
   * answers it with status 500 and the error's own message.
   */
  function Crash<T>(reason: string): (o: Outcome<T>)
    ensures o.IsError(500) && o.error.message == reason && o.error.errors == ErrorClass
  {
    Failed(NewApiError(Code(500), Some(reason), []))
  }

  /** `throw new ApiError(text, inner)`: a message in the status position. */
  function ThrowText<T>(text: string, inner: string): (o: Outcome<T>)
    ensures o.Failed? && o.error.statusCode == Text(text) && o.error.message == inner
  {
    Failed(NewApiError(Text(text), Some(inner), []))
  }
}
