/**
 * The outcome of a request, as the screens observe it: the response data,
 * or a failure with the HTTP status (absent when no response arrived) and
 * the server's `message` field.
 */
module Http {
  import opened Wrappers

  datatype Reply<T> = Ok(data: T) | Failed(status: Option<int>, message: Option<string>)

  /** `err.response?.status === 401`. */
  predicate Unauthorized<T>(reply: Reply<T>) {
    reply.Failed? && reply.status == Some(401)
  }

  /** `message || fallback`: the server's message when it is a non-empty string, the fallback otherwise. */
  function MessageOr(message: Option<string>, fallback: string): (t: string)
    ensures t == fallback || (message.Some? && t == message.value && t != "")
    ensures message.Some? && message.value != "" ==> t == message.value
  {
    if message.Some? && message.value != "" then message.value else fallback
  }

  /** The message shown for a failed request. */
  function FailureMessage<T>(reply: Reply<T>, fallback: string): (t: string)
    requires reply.Failed?
    ensures fallback != "" ==> t != ""
  {
    MessageOr(reply.message, fallback)
  }
}
