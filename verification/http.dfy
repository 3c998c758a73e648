/**
 * The outcome of one HTTP request as the components see it. The transport
 * itself is not modelled: every response is an input of the operation that
 * consumes it.
 */
module Http {
  import opened Wrappers

  /** A resolved request (`Ok`) or a rejected one. A rejection carries the
      HTTP status when the server answered (`error.response?.status`) and the
      server's `message` field ("" when absent). */
  datatype Response<+T> = Ok(data: T) | Err(status: Option<int>, message: string)

  /** One entry of `Promise.allSettled`. */
  datatype Settled<+T> = Fulfilled(value: T) | Rejected

  /** `error.response?.data?.message || fallback`: the server's message when it
      sent a non-empty one, the component's own text otherwise. */
  function ErrorText<T>(r: Response<T>, fallback: string): (text: string)
    requires r.Err?
    ensures r.message != "" ==> text == r.message
    ensures r.message == "" ==> text == fallback
  {
    if r.message != "" then r.message else fallback
  }

  /** True when the request failed with the given HTTP status. */
  predicate HasStatus<T>(r: Response<T>, code: int) {
    r.Err? && r.status == Some(code)
  }
}
