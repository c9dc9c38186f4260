/** `checkStatus` (js/scripts.js:18-25), the status gate of the fetch chain,
    as a pure decision instead of a promise. */
module Fetch {
  import opened Wrappers

  /** The parts of a fetch `Response` the gate looks at: the numeric status,
      its reason phrase, and the body it passes along untouched. */
  datatype Response = Response(status: int, statusText: string, body: string) {
    /** `response.ok`: the status is in the range 200 to 299. */
    predicate Ok() { 200 <= status <= 299 }
  }

  /** `new Error(message)`. */
  datatype Error = Error(message: string)

  /** Resolves with the very same response when it is ok; otherwise rejects
      with an error whose message is the response's status text. */
  function CheckStatus(response: Response): (r: Result<Response, Error>)
    ensures r.Success? <==> 200 <= response.status <= 299
    ensures r.Success? ==> r.value == response
    ensures r.Failure? ==> r.error.message == response.statusText
  {
    if response.Ok() then Success(response) else Failure(Error(response.statusText))
  }
}
