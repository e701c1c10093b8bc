/**
 * What the HTTP client (axios) hands back for a chat-completion request: either the
 * parsed body of a 2xx reply, or the error object it rejects with. The request itself,
 * its timeout and the network are outside the model; their outcome is an input.
 */
module Http {
  import opened Wrappers

  /** `choices[i].message`; `content` is `None` when the field is missing or null. */
  datatype Message = Message(content: Option<string>)

  /** `choices[i]`; `message` is `None` when the field is missing or null. */
  datatype Choice = Choice(message: Option<Message>)

  /**
   * The parsed JSON body (`response.data`). A field that is missing or null is `None`;
   * an empty body behaves as one with no fields. `usage` is kept as its JSON text;
   * `errorMessage` is `error.message`.
   */
  datatype Body = Body(
    choices: Option<seq<Choice>>,
    model: Option<string>,
    id: Option<string>,
    usage: Option<string>,
    errorMessage: Option<string>)

  /** `error.response` of a rejected request: the HTTP status and body. */
  datatype ErrorResponse = ErrorResponse(status: nat, body: Body)

  /**
   * The error a request rejects with: `error.code` (`ECONNABORTED` on a timeout),
   * `error.response` when a reply came back with a non-2xx status, `error.request`
   * (whether the request went out) and `error.message`.
   */
  datatype RequestError = RequestError(code: Option<string>, response: Option<ErrorResponse>, requestSent: bool, message: string)

  /** The settled request. */
  datatype Outcome = Replied(body: Body) | Failed(failure: RequestError)

  /** The `code` axios gives a request that ran past its timeout. */
  const TimeoutCode: string := "ECONNABORTED"

  predicate TimedOut(f: RequestError) {
    f.code == Some(TimeoutCode)
  }
}
