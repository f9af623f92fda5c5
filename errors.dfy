/**
 * The AI service's error values (apps/ai-service/src/utils/errors.ts) and
 * the other JavaScript errors that reach its handlers.
 */
module Errors {

  /** Which constructor built an `AppError`: the base class or one of its two subclasses. */
  datatype AppClass = BaseClass | ValidationClass | TimeoutClass

  datatype Error =
    /** An instance of `AppError` or of one of its subclasses. */
    | AppError(cls: AppClass, name: string, message: string, statusCode: int, isOperational: bool)
    /** Any other thrown error (`TypeError`, `AbortError`, a driver error, ...). */
    | JsError(name: string, message: string)

  /** `new AppError(message, statusCode = 500)`. */
  function NewAppError(message: string, statusCode: int := 500): (e: Error)
    ensures e.AppError? && e.cls == BaseClass && e.name == "Error" && e.isOperational
    ensures e.message == message && e.statusCode == statusCode
  {
    AppError(BaseClass, "Error", message, statusCode, true)
  }

  /** `new ValidationError(message)`: an `AppError` with status 400. */
  function NewValidationError(message: string): (e: Error)
    ensures e.AppError? && e.cls == ValidationClass && e.isOperational
    ensures e.message == message && e.statusCode == 400 && e.name == "ValidationError"
  {
    AppError(ValidationClass, "ValidationError", message, 400, true)
  }

  /** `new TimeoutError(message = "Request timeout")`: an `AppError` with status 408. */
  function NewTimeoutError(message: string := "Request timeout"): (e: Error)
    ensures e.AppError? && e.cls == TimeoutClass && e.isOperational
    ensures e.message == message && e.statusCode == 408 && e.name == "TimeoutError"
  {
    AppError(TimeoutClass, "TimeoutError", message, 408, true)
  }

  /** The `TypeError` a property read on `null` or `undefined` throws. */
  function NullPropertyError(key: string): (e: Error)
    ensures e.JsError? && e.name == "TypeError"
  {
    JsError("TypeError", "Cannot read properties of null (reading '" + key + "')")
  }
}
