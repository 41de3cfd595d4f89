/**
  Shared value types: an optional value (SQL NULL, an absent JSON field)
  and the JSON envelope every HTTP handler answers with.
*/
module Common {

  /** A value that may be missing: a nullable column or an omitted request field. */
  datatype Option<+T> = None | Some(value: T) {

    /** The value, or `default` when it is missing (the `??` operator). */
    function GetOr(default: T): T {
      match this
      case Some(v) => v
      case None => default
    }
  }

  /**
    The response envelope: `{ success: true, data }` or
    `{ success: false, error: code }` sent with an HTTP status.
  */
  datatype Reply<+T> = Ok(data: T) | Fail(status: nat, code: string)

  /** HTTP status of every error raised by the storage layer. */
  const InternalStatus: nat := 500

  /** Error code of the dashboard handlers when a storage error carries no message. */
  const InternalError: string := "INTERNAL_ERROR"

  /** `err.message || fallback`: an error without a message reports the handler's generic code. */
  function ErrorCode(message: string, fallback: string): (code: string)
    requires fallback != ""
    ensures code != ""
    ensures message != "" ==> code == message
    ensures message == "" ==> code == fallback
  {
    if message != "" then message else fallback
  }
}
