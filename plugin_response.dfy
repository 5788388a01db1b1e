/**
 * PluginResponse: the immutable outcome of a submission, built only by the
 * static factories. `data` is null (None) on every error response.
 */
module PluginResponseModel {
  import opened Wrappers

  datatype PluginResponse = PluginResponse(success: bool, message: string, data: Option<string>, statusCode: int)
  {
    /** `toString`: the data on success (null when the data is), else "Error: " + message. */
    function ToString(): (r: Option<string>)
      ensures success ==> r == data
      ensures !success ==> r.Some? && |r.value| >= 7 && r.value[..7] == "Error: " && r.value[7..] == message
    {
      if success then data else Some("Error: " + message)
    }
  }

  /** `success(data)`: status 200 and the message "Success". */
  function Success(data: string): (r: PluginResponse)
    ensures r.success && r.data == Some(data)
    ensures r.message == "Success" && r.statusCode == 200
  {
    PluginResponse(true, "Success", Some(data), 200)
  }

  /** `error(message, statusCode)`. */
  function ErrorWithStatus(message: string, statusCode: int): (r: PluginResponse)
    ensures !r.success && r.data == None
    ensures r.message == message && r.statusCode == statusCode
  {
    PluginResponse(false, message, None, statusCode)
  }

  /** `error(message)`: the same with status 500. */
  function Error(message: string): (r: PluginResponse)
    ensures r == ErrorWithStatus(message, 500)
  {
    PluginResponse(false, message, None, 500)
  }

  // ---- properties ----

  /** A success response prints as its data; an error one as "Error: " and its message. */
  lemma ToStringOfFactories(data: string, message: string, statusCode: int)
    ensures Success(data).ToString() == Some(data)
    ensures ErrorWithStatus(message, statusCode).ToString() == Some("Error: " + message)
    ensures Error(message).ToString() == Some("Error: " + message)
  {
  }

  /** The two overloads of `error` differ only in the status code. */
  lemma ErrorOverloads(message: string, statusCode: int)
    ensures ErrorWithStatus(message, statusCode) == Error(message).(statusCode := statusCode)
  {
  }
}
