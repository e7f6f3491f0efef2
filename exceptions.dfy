/** backend/core/exceptions.py: the project-wide DRF exception handler. It lets the
    framework's own handler build the response and then decorates that response's data in
    place. The framework handler is not part of this model: its result is an input. */
module Exceptions {
  import opened Common
  import opened Http

  /** The text added for validation errors. */
  const ErrorMessage: string := "There was an issue with the data you provided."

  /** `custom_exception_handler(exc, context)`, given `baseResponse`, the value returned by
      `exception_handler(exc, context)` (null for exceptions the framework does not handle).
      Writing a key into data that is not a dictionary raises TypeError in Python. */
  method CustomExceptionHandler(exc: Exception, baseResponse: Response?) returns (r: Result<Response?, Exception>)
    modifies baseResponse
    ensures baseResponse == null ==> r == Success(null)
    ensures baseResponse != null && !old(baseResponse.data).JObject? ==>
      r == Failure(TypeError) && unchanged(baseResponse)
    ensures baseResponse != null && old(baseResponse.data).JObject? ==>
      && r == Success(baseResponse)
      && baseResponse.status == old(baseResponse.status)
      && baseResponse.cookies == old(baseResponse.cookies)
      && baseResponse.data.JObject?
      && var before, after := old(baseResponse.data).fields, baseResponse.data.fields;
      && after.Keys == before.Keys + {"status_code"} + (if exc.ValidationError? then {"error_message"} else {})
      && after["status_code"] == JInt(baseResponse.status)
      && (exc.ValidationError? ==> after["error_message"] == JStr(ErrorMessage))
      && (forall k :: k in before && k != "status_code" && (k != "error_message" || !exc.ValidationError?) ==> after[k] == before[k])
  {
    if baseResponse != null {
      if !baseResponse.data.JObject? {
        return Failure(TypeError);
      }
      baseResponse.data := JObject(baseResponse.data.fields["status_code" := JInt(baseResponse.status)]);
      if exc.ValidationError? {
        baseResponse.data := JObject(baseResponse.data.fields["error_message" := JStr(ErrorMessage)]);
      }
    }
    return Success(baseResponse);
  }
}
