/**
 * The JSON envelope every handler answers with: `ApiResponse.success` and
 * `ApiResponse.error`. The clock reading that `new Date().toISOString()`
 * takes is the `timestamp` parameter.
 */
module ApiResponses {
  import opened Common

  const DefaultSuccessMessage := "Success"
  const DefaultErrorCode := 400

  /** The object literal each constructor returns, one alternative per constructor. */
  datatype Envelope<+D> =
    | SuccessEnvelope(message: string, data: D, timestamp: string)
    | ErrorEnvelope(message: string, code: int, details: Option<string>, timestamp: string)
  {
    /** The `success` key. */
    predicate Success() {
      SuccessEnvelope?
    }

    /** The keys of the object literal (`details` is written even when it is `undefined`). */
    function Keys(): set<string> {
      if SuccessEnvelope? then {"success", "message", "data", "timestamp"}
      else {"success", "message", "code", "details", "timestamp"}
    }
  }

  /** `ApiResponse.success(data, message = 'Success')` */
  function Success<D>(data: D, message: Option<string>, timestamp: string): (e: Envelope<D>)
    ensures e.Success() && "code" !in e.Keys()
    ensures e.data == data && e.timestamp == timestamp
    ensures message.Some? ==> e.message == message.value
    ensures message.None? ==> e.message == DefaultSuccessMessage
  {
    SuccessEnvelope(message.GetOr(DefaultSuccessMessage), data, timestamp)
  }

  /** `ApiResponse.error(message, code = 400, details?)` */
  function Error<D>(message: string, code: Option<int>, details: Option<string>, timestamp: string): (e: Envelope<D>)
    ensures !e.Success() && "data" !in e.Keys()
    ensures e.message == message && e.details == details && e.timestamp == timestamp
    ensures code.Some? ==> e.code == code.value
    ensures code.None? ==> e.code == DefaultErrorCode
  {
    ErrorEnvelope(message, code.GetOr(DefaultErrorCode), details, timestamp)
  }
}
