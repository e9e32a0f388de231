/**
 * The part of an axios error the frontend reads: the server's JSON body,
 * whose `error` field carries the message the backend's error handler sent.
 * `id` stands for the object's identity, which React compares.
 */
module AxiosErrors {
  import opened Wrappers

  datatype ResponseData = ResponseData(error: Option<string>)
  datatype AxiosError = AxiosError(id: nat, response: Option<ResponseData>)

  /** `error?.response?.data?.error`: the server's message, when there is a response carrying one. */
  function ServerMessage(e: AxiosError): (r: Option<string>)
    ensures r.Some? <==> e.response.Some? && e.response.value.error.Some?
    ensures r.Some? ==> r.value == e.response.value.error.value
  {
    match e.response
    case None => None
    case Some(data) => data.error
  }
}
