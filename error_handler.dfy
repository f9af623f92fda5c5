/**
 * The AI service's terminal Express error middleware
 * (apps/ai-service/src/middleware/errorHandler.ts): one error in, exactly
 * one JSON response out; `next` is never called.
 */
module ErrorHandler {
  import opened Wrappers
  import opened Errors

  /** The JSON body `{error, code?, details?}`. */
  datatype ErrorBody = ErrorBody(error: string, code: Option<int>, details: Option<string>)

  datatype ErrorReply = ErrorReply(status: int, body: ErrorBody)

  /**
   * `errorHandler(error)` under `process.env.NODE_ENV = nodeEnv`. The
   * branches are tried in order: an `AppError` (subclasses included) answers
   * with its own status and message; otherwise the error's `name` selects 400
   * or 408; anything else is a 500 whose message is disclosed only in
   * development.
   */
  function HandleError(e: Error, nodeEnv: Option<string>): (r: ErrorReply)
    ensures e.AppError? ==> r == ErrorReply(e.statusCode, ErrorBody(e.message, Some(e.statusCode), None))
    ensures !e.AppError? ==> r.body.code == None && r.status in {400, 408, 500}
    ensures !e.AppError? && e.name == "ValidationError" ==>
              r == ErrorReply(400, ErrorBody("Validation failed", None, Some(e.message)))
    ensures !e.AppError? && e.name == "TimeoutError" ==>
              r == ErrorReply(408, ErrorBody("Request timeout", None, None))
    ensures !e.AppError? && e.name != "ValidationError" && e.name != "TimeoutError" ==>
              && r.status == 500 && r.body.error == "Internal server error"
              && (r.body.details.Some? <==> nodeEnv == Some("development"))
              && (r.body.details.Some? ==> r.body.details.value == e.message)
  {
    if e.AppError? then
      ErrorReply(e.statusCode, ErrorBody(e.message, Some(e.statusCode), None))
    else if e.name == "ValidationError" then
      ErrorReply(400, ErrorBody("Validation failed", None, Some(e.message)))
    else if e.name == "TimeoutError" then
      ErrorReply(408, ErrorBody("Request timeout", None, None))
    else
      ErrorReply(500, ErrorBody("Internal server error", None,
                                if nodeEnv == Some("development") then Some(e.message) else None))
  }

  /**
   * The service's own `ValidationError` and `TimeoutError` are `AppError`s,
   * so they take the first branch: they keep their message and report a
   * `code`, and the name-based branches are never reached for them.
   */
  lemma OwnSubclassesTakeAppErrorBranch(message: string, nodeEnv: Option<string>)
    ensures HandleError(NewValidationError(message), nodeEnv)
              == ErrorReply(400, ErrorBody(message, Some(400), None))
    ensures HandleError(NewTimeoutError(), nodeEnv)
              == ErrorReply(408, ErrorBody("Request timeout", Some(408), None))
    ensures HandleError(NewTimeoutError(message), nodeEnv).body.error == message
  {
  }
}
