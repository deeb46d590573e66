/**
 * The application's error-handling middleware: it turns the error a handler
 * passed on (or threw) into the JSON failure response. The model assumes the
 * middleware is installed after the routes; `server.js` as shown does not
 * install it, and then the framework's default handler answers instead.
 *
 * The handler copies the error, then runs three checks in order, each of which
 * may replace the copy by a fresh `ErrorResponse` (so a later match overwrites
 * an earlier one): a document-store `CastError` (malformed id), a duplicate-key
 * error (`code === 11000`) and a `ValidationError`. The response status is the
 * copy's `statusCode`, or 500 when that is missing or zero; the body is
 * `{success: false, error: message}`, with `'Server Error'` for an empty message.
 *
 * Two property reads can throw a `TypeError` inside the handler itself:
 * `Object.keys(error.keyValue)` when the current copy has no `keyValue`
 * (always the case right after a `CastError` replaced it) and
 * `Object.values(err.errors)` for a `ValidationError` without `errors`. Those
 * runs end in `Crashed`: this handler sends nothing, and the framework's
 * default error handler answers 500 instead.
 */
module ErrorHandler {
  import opened Options
  import opened Text

  /** The parts of a thrown error the handler reads. */
  datatype Thrown = Thrown(
    name: string,                   // err.name
    message: string,                // err.message
    statusCode: Option<int>,        // own statusCode property (set by ErrorResponse)
    code: Option<int>,              // err.code of a document-store driver error
    value: string,                  // err.value of a CastError, as a template literal renders it
    keyValue: Option<seq<string>>,  // the keys of err.keyValue, in order; None when the property is absent
    errors: Option<seq<string>>)    // the message of each entry of err.errors, in order ("" for a missing one)

  /** The handler's local `error`: what the response is built from. */
  datatype Current = Current(statusCode: Option<int>, message: string, keyValue: Option<seq<string>>)

  datatype Response = Response(status: int, success: bool, error: string)

  datatype Outcome = Sent(response: Response) | Crashed

  const DuplicateKey := 11000

  /** `new ErrorResponse(message, statusCode)` as the handler's local `error`. */
  function Replacement(message: string, statusCode: int): Current {
    Current(Some(statusCode), message, None)
  }

  /** `let error = { ...err }; error.message = err.message`. */
  function Copy(err: Thrown): Current {
    Current(err.statusCode, err.message, err.keyValue)
  }

  /** `Object.keys(keyValue)[0]` rendered in a template literal. */
  function FirstKey(keys: seq<string>): string {
    if keys == [] then "undefined" else keys[0]
  }

  function CastMessage(value: string): string {
    "Resource not found with id of " + value
  }

  function DuplicateMessage(keys: seq<string>): string {
    "Duplicate field value entered. Field: " + FirstKey(keys)
  }

  /** An array of messages passed to `Error` becomes its `join(',')`. */
  function ValidationMessage(messages: seq<string>): string {
    Join(messages, ',')
  }

  /** The first check: a malformed id. */
  function CheckCast(err: Thrown, error: Current): Current {
    if err.name == "CastError" then Replacement(CastMessage(err.value), 404) else error
  }

  /** The second check reads `keyValue` from the current copy, not from `err`; `None` is the `TypeError`. */
  function CheckDuplicate(err: Thrown, error: Current): Option<Current> {
    if err.code == Some(DuplicateKey) then
      match error.keyValue
      case Some(keys) => Some(Replacement(DuplicateMessage(keys), 400))
      case None => None
    else Some(error)
  }

  /** The third check; `None` is the `TypeError` of `Object.values(undefined)`. */
  function CheckValidation(err: Thrown, error: Current): Option<Current> {
    if err.name == "ValidationError" then
      match err.errors
      case Some(messages) => Some(Replacement(ValidationMessage(messages), 400))
      case None => None
    else Some(error)
  }

  /** `res.status(error.statusCode || 500).json({success: false, error: error.message || 'Server Error'})`. */
  function Respond(error: Current): Response {
    var status := match error.statusCode
      case Some(s) => if s != 0 then s else 500
      case None => 500;
    Response(status, false, if error.message != "" then error.message else "Server Error")
  }

  /** Whether the error is one of the three kinds the handler recognises. */
  predicate Recognised(err: Thrown) {
    err.name == "CastError" || err.code == Some(DuplicateKey) || err.name == "ValidationError"
  }

  /** The handler, check by check. */
  function HandleError(err: Thrown): (o: Outcome)
    // a malformed id gives 404 naming the offending value
    ensures err.name == "CastError" && err.code != Some(DuplicateKey) ==>
      o == Sent(Response(404, false, "Resource not found with id of " + err.value))
    // a duplicate key gives 400 naming the first key, when the copy still carries `keyValue`
    ensures err.code == Some(DuplicateKey) && err.name != "ValidationError" && err.name != "CastError" ==>
      match err.keyValue
      case Some(keys) =>
        o == Sent(Response(400, false, "Duplicate field value entered. Field: " + (if keys == [] then "undefined" else keys[0])))
      case None => o == Crashed
    // after a CastError the copy has no `keyValue`, so a duplicate-key code makes the handler throw;
    // so does a duplicate-key error that never carried `keyValue`, whatever its name
    ensures err.code == Some(DuplicateKey) && (err.name == "CastError" || err.keyValue.None?) ==> o == Crashed
    // a validation error, checked last, overwrites the duplicate-key message
    ensures err.name == "ValidationError" && (err.code != Some(DuplicateKey) || err.keyValue.Some?) ==>
      match err.errors
      case Some(messages) =>
        o == Sent(Response(400, false, if Join(messages, ',') == "" then "Server Error" else Join(messages, ',')))
      case None => o == Crashed
    // anything else keeps its own status (500 when missing or zero) and message
    ensures !Recognised(err) ==>
      o == Sent(Response(
        if err.statusCode.Some? && err.statusCode.value != 0 then err.statusCode.value else 500,
        false,
        if err.message == "" then "Server Error" else err.message))
    // a response is always a failure with a non-empty message
    ensures o.Sent? ==> !o.response.success && o.response.error != ""
  {
    var afterCast := CheckCast(err, Copy(err));
    match CheckDuplicate(err, afterCast)
    case None => Crashed
    case Some(afterDuplicate) =>
      match CheckValidation(err, afterDuplicate)
      case None => Crashed
      case Some(error) => Sent(Respond(error))
  }

  /** The error a controller passes on with `next(new ErrorResponse(message, statusCode))`. */
  function ErrorResponse(message: string, statusCode: int): Thrown {
    Thrown("Error", message, Some(statusCode), None, "", None, None)
  }

  /**
   * A controller's own error reaches the client unchanged: its status code and
   * its message, whatever they are, as long as they are not the falsy zero and
   * empty string.
   */
  lemma ForwardsErrorResponse(message: string, statusCode: int)
    requires message != "" && statusCode != 0
    ensures HandleError(ErrorResponse(message, statusCode)) == Sent(Response(statusCode, false, message))
  {
  }

  /** The order of the checks matters only through the `keyValue` of the copy: it is what makes a cast error with a duplicate-key code throw. */
  lemma CastThenDuplicateCrashes(err: Thrown)
    requires err.name == "CastError" && err.code == Some(DuplicateKey) && err.keyValue.Some?
    ensures HandleError(err) == Crashed
    ensures CheckDuplicate(err, Copy(err)).Some?
  {
  }
}
